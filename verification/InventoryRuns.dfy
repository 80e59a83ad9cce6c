/** Runs of the stock ledger: any interleaving of movements, initialisations and racing order calls. */
module InventoryRuns {
  import opened Wrappers
  import opened Text
  import opened Inventory
  import opened InventoryLaws

  /** `seen` is the earlier state in which an order call did its lookup; rivals may commit meanwhile. */
  datatype Event =
    | Move(movement: Movement)
    | Order(call: OrderCall, seen: nat, early: bool)
    | ConvertOne(product: ProductId, store: StoreId, reason: string, reference: string)
    | InitialiseAll

  function Next(past: seq<State>, event: Event): State
    requires past != []
  {
    var now := past[|past| - 1];
    match event
    case Move(m) => AfterMove(now, m)
    case Order(call, seen, early) =>
      if seen < |past| then OrderStock(past[seen].ledger, now, early, call).after else now
    case ConvertOne(p, store, reason, reference) =>
      (match Convert(now, p, store, reason, reference)
       case Ok(applied) => applied.after
       case Err(_) => now)
    case InitialiseAll => Initialise(now)
  }

  predicate IsRun(states: seq<State>, events: seq<Event>) {
    |states| == |events| + 1
    && forall i :: 0 <= i < |events| ==> states[i + 1] == Next(states[..i + 1], events[i])
  }

  function Stocks(s: State): seq<int> {
    seq(|s.products|, i requires 0 <= i < |s.products| => s.products[i].stock)
  }

  predicate UniqueReferences(ledger: seq<Txn>) {
    forall i, j :: 0 <= i < j < |ledger| && IsOrderReference(ledger[i].reference)
      ==> ledger[i].reference != ledger[j].reference
  }

  // ----- Initialisation -----

  lemma {:induction false} InitialiseKeeps(s: State, from: nat, p: ProductId, initial: int)
    requires p < |s.products| && Replays(s, p, initial)
    ensures InitialiseFrom(s, from).products == s.products
    ensures Replays(InitialiseFrom(s, from), p, initial)
    decreases |s.products| - from
  {
    if from < |s.products| {
      if NeedsOpening(s, from) {
        OpeningApplies(s, from);
        ConvertReplays(s, from, p, initial);
        var m := OpeningMovement(s, from, s.products[from].store, INITIALISED, "");
        InitialiseKeeps(Apply(s, m, true).value.after, from + 1, p, initial);
      } else {
        InitialiseKeeps(s, from + 1, p, initial);
      }
    }
  }

  lemma {:induction false} OpeningApplies(s: State, p: ProductId)
    requires NeedsOpening(s, p)
    ensures var r := Apply(s, OpeningMovement(s, p, s.products[p].store, INITIALISED, ""), true);
      r.Ok? && r.value.after == State(s.products, s.ledger + [r.value.row])
      && r.value.row.product == p && r.value.row.reference == ""
  {
    assert !OpeningRecorded(s.ledger, p);
  }

  /**
   * Initialisation never touches stock, only appends, and gives a row to exactly the products that
   * had a positive balance and no history.
   */
  lemma {:induction false} InitialiseRecords(s: State, from: nat, p: ProductId)
    ensures var after := InitialiseFrom(s, from);
      after.products == s.products && s.ledger <= after.ledger
      && (UniqueReferences(s.ledger) ==> UniqueReferences(after.ledger))
      && (HasHistory(after.ledger, p) <==> HasHistory(s.ledger, p) || (p >= from && NeedsOpening(s, p)))
    decreases |s.products| - from
  {
    if from < |s.products| {
      if NeedsOpening(s, from) {
        OpeningApplies(s, from);
        var a := Apply(s, OpeningMovement(s, from, s.products[from].store, INITIALISED, ""), true).value;
        InitialiseRecords(a.after, from + 1, p);
        HistoryPush(s.ledger, a.row, p);
        if UniqueReferences(s.ledger) {
          PushUnique(s.ledger, a.row);
        }
      } else {
        InitialiseRecords(s, from + 1, p);
      }
    }
  }

  lemma {:induction false} HistoryPush(ledger: seq<Txn>, row: Txn, p: ProductId)
    ensures HasHistory(ledger + [row], p) <==> HasHistory(ledger, p) || row.product == p
  {
    var after := ledger + [row];
    if HasHistory(ledger, p) {
      var i :| 0 <= i < |ledger| && ledger[i].product == p;
      assert after[i].product == p;
    }
    if row.product == p {
      assert after[|ledger|].product == p;
    }
  }

  /** Running the initialisation again changes nothing at all. */
  lemma {:induction false} InitialiseIdempotent(s: State)
    ensures Initialise(s).products == s.products
    ensures Initialise(Initialise(s)) == Initialise(s)
  {
    var once := Initialise(s);
    InitialiseRecords(s, 0, 0);
    forall p: nat ensures !NeedsOpening(once, p) {
      InitialiseRecords(s, 0, p);
    }
    NothingToInitialise(once, 0);
  }

  lemma {:induction false} NothingToInitialise(s: State, from: nat)
    requires forall p: nat :: !NeedsOpening(s, p)
    ensures InitialiseFrom(s, from) == s
    decreases |s.products| - from
  {
    if from < |s.products| {
      NothingToInitialise(s, from + 1);
    }
  }

  /** A direct conversion asks for a positive balance and no opening row, not for an empty history. */
  lemma {:induction false} ConversionAcceptedIff(s: State, p: ProductId, store: StoreId, reason: string, reference: string)
    requires p < |s.products|
    ensures Convert(s, p, store, reason, reference).Ok? <==>
      && s.products[p].store == store && s.products[p].stock > 0
      && !OpeningRecorded(s.ledger, p) && !Clashes(s.ledger, reference)
  {
  }

  /**
   * A direct conversion of a product that already has rows breaks the chain; on a product without
   * history it keeps it. So the ledger still replays if and only if the history was empty.
   */
  lemma {:induction false} DirectConversionChainsIff(
      s: State, p: ProductId, store: StoreId, reason: string, reference: string, initial: int)
    requires p < |s.products| && Replays(s, p, initial)
    requires Convert(s, p, store, reason, reference).Ok?
    ensures var after := Convert(s, p, store, reason, reference).value.after;
      && after.products == s.products && s.ledger <= after.ledger
      && (Replays(after, p, initial) <==> !HasHistory(s.ledger, p))
      && (Chained(after.ledger, p) <==> !HasHistory(s.ledger, p))
  {
    var m := OpeningMovement(s, p, store, if reason == "" then CONVERTED else reason, reference);
    AppliedRow(s, m, true);
    var a := Apply(s, m, true).value;
    PushRow(s.ledger, a.row, p);
    NoHistoryNoBalance(s.ledger, p);
    OneOpeningPush(s.ledger, a.row, p);
  }

  /** Such a conversion goes through: five units on the shelf after one stock-in, then converted again. */
  lemma {:induction false} ConversionBreaksChain()
    ensures exists s: State ::
      && |s.products| == 1 && Replays(s, 0, 0)
      && Convert(s, 0, 0, "", "").Ok? && !Replays(Convert(s, 0, 0, "", "").value.after, 0, 0)
  {
    var empty := State([ProductRow(0, 0)], []);
    var delivery := Movement(0, 0, StockIn, 5000, "Delivery", "", None, 0, None, None, None, None);
    var s := AfterMove(empty, delivery);
    MoveReplays(empty, delivery, 0, 0);
    assert s.ledger[0].product == 0 && HasHistory(s.ledger, 0);
    ConversionAcceptedIff(s, 0, 0, "", "");
    DirectConversionChainsIff(s, 0, 0, "", "", 0);
  }

  // ----- Once-only references -----

  lemma {:induction false} PushUnique(ledger: seq<Txn>, row: Txn)
    requires UniqueReferences(ledger) && !Clashes(ledger, row.reference)
    ensures UniqueReferences(ledger + [row])
  {
    var after := ledger + [row];
    forall i, j | 0 <= i < j < |after| && IsOrderReference(after[i].reference)
      ensures after[i].reference != after[j].reference
    {
      if j == |ledger| {
        assert ledger[i] in ledger;
      }
    }
  }

  lemma {:induction false} MoveKeepsReferences(s: State, m: Movement)
    ensures s.ledger <= AfterMove(s, m).ledger
    ensures UniqueReferences(s.ledger) ==> UniqueReferences(AfterMove(s, m).ledger)
  {
    if Apply(s, m, false).Ok? && UniqueReferences(s.ledger) {
      AppliedRow(s, m, false);
      PushUnique(s.ledger, Apply(s, m, false).value.row);
    }
  }

  lemma {:induction false} OrderStockIsMove(seen: seq<Txn>, now: State, early: bool, call: OrderCall)
    ensures OrderStock(seen, now, early, call).after in {now, AfterMove(now, OrderMove(call))}
  {
  }

  /** One step of a run: the ledger only grows, references stay unique, every product still replays. */
  lemma {:induction false} StepKeeps(past: seq<State>, event: Event)
    requires past != []
    ensures var now, after := past[|past| - 1], Next(past, event);
      now.ledger <= after.ledger
      && (UniqueReferences(now.ledger) ==> UniqueReferences(after.ledger))
      && |now.products| <= |after.products|
  {
    var now := past[|past| - 1];
    match event
    case Move(m) => MoveKeepsReferences(now, m);
    case Order(call, seen, early) =>
      MoveKeepsReferences(now, OrderMove(call));
      if seen < |past| {
        OrderStockIsMove(past[seen].ledger, now, early, call);
      }
    case ConvertOne(p, store, reason, reference) =>
      if Convert(now, p, store, reason, reference).Ok? {
        ConversionKeepsReferences(now, p, store, reason, reference);
      }
    case InitialiseAll => InitialiseRecords(now, 0, 0);
  }

  lemma {:induction false} ConversionKeepsReferences(s: State, p: ProductId, store: StoreId, reason: string, reference: string)
    requires Convert(s, p, store, reason, reference).Ok?
    ensures var after := Convert(s, p, store, reason, reference).value.after;
      s.ledger <= after.ledger && (UniqueReferences(s.ledger) ==> UniqueReferences(after.ledger)) && after.products == s.products
  {
    var m := OpeningMovement(s, p, store, if reason == "" then CONVERTED else reason, reference);
    AppliedRow(s, m, true);
    if UniqueReferences(s.ledger) {
      PushUnique(s.ledger, Apply(s, m, true).value.row);
    }
  }

  /** A conversion is accepted although the product has rows, as a direct one or one that lost a race may be. */
  predicate MeetsHistory(past: seq<State>, event: Event)
    requires past != []
  {
    var now := past[|past| - 1];
    event.ConvertOne? && Convert(now, event.product, event.store, event.reason, event.reference).Ok?
    && HasHistory(now.ledger, event.product)
  }

  lemma {:induction false} OtherProductReplays(s: State, after: State, row: Txn, p: ProductId, initial: int)
    requires p < |s.products| && Replays(s, p, initial) && row.product != p
    requires after.products == s.products && after.ledger == s.ledger + [row]
    ensures Replays(after, p, initial)
  {
    PushRow(s.ledger, row, p);
    OneOpeningPush(s.ledger, row, p);
  }

  lemma {:induction false} ConversionReplays(
      s: State, c: ProductId, store: StoreId, reason: string, reference: string, p: ProductId, initial: int)
    requires Convert(s, c, store, reason, reference).Ok? && !HasHistory(s.ledger, c)
    requires p < |s.products| && Replays(s, p, initial)
    ensures var after := Convert(s, c, store, reason, reference).value.after;
      after.products == s.products && Replays(after, p, initial)
  {
    if p == c {
      DirectConversionChainsIff(s, c, store, reason, reference, initial);
    } else {
      var m := OpeningMovement(s, c, store, if reason == "" then CONVERTED else reason, reference);
      AppliedRow(s, m, true);
      OtherProductReplays(s, Apply(s, m, true).value.after, Apply(s, m, true).value.row, p, initial);
    }
  }

  lemma {:induction false} StepReplays(past: seq<State>, event: Event, initial: seq<int>)
    requires past != [] && AllReplay(past[|past| - 1], initial) && !MeetsHistory(past, event)
    ensures AllReplay(Next(past, event), initial)
  {
    var now := past[|past| - 1];
    if event.InitialiseAll? {
      InitialiseRecords(now, 0, 0);
    }
    forall p | 0 <= p < |initial|
      ensures |Next(past, event).products| == |initial| && Replays(Next(past, event), p, initial[p])
    {
      match event
      case Move(m) => MoveReplays(now, m, p, initial[p]);
      case Order(call, seen, early) =>
        MoveReplays(now, OrderMove(call), p, initial[p]);
        if seen < |past| {
          OrderStockIsMove(past[seen].ledger, now, early, call);
        }
      case ConvertOne(c, store, reason, reference) =>
        if Convert(now, c, store, reason, reference).Ok? {
          ConversionReplays(now, c, store, reason, reference, p, initial[p]);
        }
      case InitialiseAll => InitialiseKeeps(now, 0, p, initial[p]);
    }
    SameProductCount(past, event);
  }

  lemma {:induction false} SameProductCount(past: seq<State>, event: Event)
    requires past != []
    ensures |Next(past, event).products| == |past[|past| - 1].products|
  {
    var now := past[|past| - 1];
    match event
    case Move(m) =>
    case Order(call, seen, early) =>
      if seen < |past| {
        OrderStockIsMove(past[seen].ledger, now, early, call);
      }
    case ConvertOne(p, store, reason, reference) =>
      if Convert(now, p, store, reason, reference).Ok? {
        ConversionKeepsReferences(now, p, store, reason, reference);
      }
    case InitialiseAll => InitialiseRecords(now, 0, 0);
  }

  lemma {:induction false} CleanRunReplays(states: seq<State>, events: seq<Event>, n: nat)
    requires IsRun(states, events) && n <= |events| && FreshCatalogue(states[0])
    requires forall i :: 0 <= i < n ==> !MeetsHistory(states[..i + 1], events[i])
    ensures AllReplay(states[n], Stocks(states[0]))
  {
    if n > 0 {
      CleanRunReplays(states, events, n - 1);
      assert states[n] == Next(states[..n], events[n - 1]);
      assert !MeetsHistory(states[..(n - 1) + 1], events[n - 1]);
      StepReplays(states[..n], events[n - 1], Stocks(states[0]));
    }
  }

  /** A broken chain is never mended: rows are only added. */
  lemma {:induction false} ChainedPrefix(before: seq<Txn>, after: seq<Txn>, p: ProductId)
    requires before <= after && Chained(after, p)
    ensures Chained(before, p)
  {
    if before != after {
      var n := |after| - 1;
      assert before <= after[..n];
      ChainedPrefix(before, after[..n], p);
    }
  }

  lemma {:induction false} BrokenRunStaysBroken(states: seq<State>, events: seq<Event>, i: nat, n: nat, initial: seq<int>)
    requires IsRun(states, events) && i < n <= |events| && UniqueReferences(states[0].ledger)
    requires AllReplay(states[i], initial) && MeetsHistory(states[..i + 1], events[i])
    ensures !AllReplay(states[n], initial)
  {
    var now, event := states[i], events[i];
    assert states[..i + 1][i] == now && states[i + 1] == Next(states[..i + 1], event);
    assert event.product < |now.products|;
    DirectConversionChainsIff(now, event.product, event.store, event.reason, event.reference, initial[event.product]);
    LedgerGrows(states, events, i + 1, n);
    if AllReplay(states[n], initial) {
      assert Replays(states[n], event.product, initial[event.product]);
      ChainedPrefix(states[i + 1].ledger, states[n].ledger, event.product);
    }
  }

  /** Any catalogue balances and no ledger yet. */
  predicate FreshCatalogue(s: State) {
    s.ledger == [] && forall p :: 0 <= p < |s.products| ==> s.products[p].stock >= 0
  }

  lemma {:induction false} FirstMeeting(states: seq<State>, events: seq<Event>, n: nat) returns (i: nat)
    requires |states| == |events| + 1 && n <= |events|
    requires exists k :: 0 <= k < n && MeetsHistory(states[..k + 1], events[k])
    ensures i < n && MeetsHistory(states[..i + 1], events[i])
    ensures forall k :: 0 <= k < i ==> !MeetsHistory(states[..k + 1], events[k])
  {
    if k :| 0 <= k < n - 1 && MeetsHistory(states[..k + 1], events[k]) {
      i := FirstMeeting(states, events, n - 1);
    } else {
      i := n - 1;
    }
  }

  /**
   * Ledger replay. Starting from any catalogue balances and an empty ledger, in every interleaving of
   * movements, order calls, initialisations and single conversions: each product's rows chain from
   * its balance to the stock on its row, stock is never negative and at most one opening row exists,
   * if and only if no conversion was accepted for a product that already had rows.
   */
  lemma {:induction false} RunReplays(states: seq<State>, events: seq<Event>, n: nat)
    requires IsRun(states, events) && n <= |events| && FreshCatalogue(states[0])
    ensures AllReplay(states[n], Stocks(states[0]))
      <==> forall i :: 0 <= i < n ==> !MeetsHistory(states[..i + 1], events[i])
  {
    if exists k :: 0 <= k < n && MeetsHistory(states[..k + 1], events[k]) {
      var i := FirstMeeting(states, events, n);
      CleanRunReplays(states, events, i);
      BrokenRunStaysBroken(states, events, i, n, Stocks(states[0]));
    } else {
      CleanRunReplays(states, events, n);
    }
  }

  /** Rows are never edited or dropped, and an order reference never names two of them. */
  lemma {:induction false} RunKeepsLedger(states: seq<State>, events: seq<Event>, i: nat, j: nat)
    requires IsRun(states, events) && i <= j <= |events|
    requires UniqueReferences(states[i].ledger)
    ensures states[i].ledger <= states[j].ledger && UniqueReferences(states[j].ledger)
  {
    if i < j {
      RunKeepsLedger(states, events, i, j - 1);
      assert states[j] == Next(states[..j], events[j - 1]);
      StepKeeps(states[..j], events[j - 1]);
    }
  }

  lemma {:induction false} UniqueRow(ledger: seq<Txn>, i: nat, reference: string)
    requires UniqueReferences(ledger) && IsOrderReference(reference)
    requires i < |ledger| && ledger[i].reference == reference
    ensures Newest(ledger, reference) == Some(ledger[i])
  {
    var row := Newest(ledger, reference);
    assert ledger[i] in ledger;
    var k :| 0 <= k < |ledger| && ledger[k] == row.value;
    assert k == i;
  }

  lemma {:induction false} OrderReferenceNotBlank(reference: string)
    requires IsOrderReference(Strip(reference))
    ensures Strip(Strip(reference)) != ""
  {
    StripIdempotent(reference);
    assert |Strip(reference)| >= |ORDER_PREFIX|;
  }

  lemma {:induction false} StripIdempotent(s: string)
    ensures Strip(Strip(s)) == Strip(s)
  {
    if s != "" {
      if IsSpace(s[0]) {
        StripIdempotent(s[1..]);
      } else if IsSpace(s[|s| - 1]) {
        StripIdempotent(s[..|s| - 1]);
      }
    }
  }

  /**
   * What one order call does, race or not. A free reference makes it an ordinary movement. A taken
   * one leaves the state exactly as the rivals left it, and the caller gets the existing row if and
   * only if the row is the same movement and either the lookup saw it, or the race was lost at the
   * INSERT after every check of the movement passed.
   */
  lemma {:induction false} OrderStockOutcome(seen: seq<Txn>, now: State, early: bool, call: OrderCall)
    requires UniqueReferences(now.ledger) && seen <= now.ledger
    requires IsOrderReference(Strip(call.reference))
    ensures var reference := Strip(call.reference);
      var o := OrderStock(seen, now, early, call);
      var taken := Newest(now.ledger, reference);
      && (taken.None? ==> o.after == AfterMove(now, OrderMove(call)))
      && (taken.None? ==> (o.result.Ok? <==> Apply(now, OrderMove(call), false).Ok?))
      && (taken.Some? ==> o.after == now)
      && (taken.Some? ==>
            (o.result == Ok(taken.value) <==>
               && taken.value.product == call.product && taken.value.store == call.store
               && taken.value.kind == call.kind && taken.value.quantity == call.quantity
               && (Newest(seen, reference).Some?
                   || (!early && Apply(now, OrderMove(call), false) == Err(DuplicateReference)))))
      && (taken.Some? && o.result.Ok? ==> o.result == Ok(taken.value))
  {
    var reference := Strip(call.reference);
    OrderReferenceNotBlank(call.reference);
    var hit := Newest(seen, reference);
    if hit.Some? {
      var k :| 0 <= k < |seen| && seen[k] == hit.value;
      UniqueRow(now.ledger, k, reference);
    }
  }

  /**
   * Repeating a call that succeeded never moves stock again: whatever rivals did in between, the
   * repeat leaves the state alone and, when its lookup can see the row, returns that same row.
   */
  lemma {:induction false} RepeatedCallMovesNothing(states: seq<State>, events: seq<Event>, i: nat, j: nat, seen: nat, early: bool)
    requires IsRun(states, events) && i < j <= |events| && seen <= j
    requires events[i].Order? && events[i].seen <= i
    requires UniqueReferences(states[0].ledger)
    requires OrderStock(states[events[i].seen].ledger, states[i], events[i].early, events[i].call).result.Ok?
    ensures var call := events[i].call;
      var first := OrderStock(states[events[i].seen].ledger, states[i], events[i].early, call).result;
      var again := OrderStock(states[seen].ledger, states[j], early, call);
      again.after == states[j]
      && (again.result.Ok? ==> again.result == first)
      && (seen > i ==> again.result == first)
  {
    var call := events[i].call;
    SuccessLeavesRow(states, events, i, j);
    LedgerGrows(states, events, seen, j);
    if seen > i {
      SuccessLeavesRow(states, events, i, seen);
    }
    RepeatGivesRow(states[seen].ledger, states[j], early, call,
      OrderStock(states[events[i].seen].ledger, states[i], events[i].early, call).result.value);
  }

  lemma {:induction false} LedgerGrows(states: seq<State>, events: seq<Event>, i: nat, j: nat)
    requires IsRun(states, events) && i <= j <= |events| && UniqueReferences(states[0].ledger)
    ensures states[i].ledger <= states[j].ledger && UniqueReferences(states[j].ledger)
  {
    RunKeepsLedger(states, events, 0, i);
    RunKeepsLedger(states, events, i, j);
  }

  /** The row of a successful call is the newest under its reference in every later state. */
  lemma {:induction false} SuccessLeavesRow(states: seq<State>, events: seq<Event>, i: nat, m: nat)
    requires IsRun(states, events) && i < m <= |events| && events[i].Order? && events[i].seen <= i
    requires UniqueReferences(states[0].ledger)
    requires OrderStock(states[events[i].seen].ledger, states[i], events[i].early, events[i].call).result.Ok?
    ensures var call := events[i].call;
      var row := OrderStock(states[events[i].seen].ledger, states[i], events[i].early, call).result.value;
      Newest(states[m].ledger, Strip(call.reference)) == Some(row) && Matches(row, call) && IsOrderReference(Strip(call.reference))
  {
    var call := events[i].call;
    LedgerGrows(states, events, events[i].seen, i);
    FirstCallLeavesRow(states[events[i].seen].ledger, states[i], events[i].early, call);
    assert states[i + 1] == Next(states[..i + 1], events[i]);
    LedgerGrows(states, events, i + 1, m);
    RowStaysNewest(states[i + 1].ledger, states[m].ledger, Strip(call.reference),
      OrderStock(states[events[i].seen].ledger, states[i], events[i].early, call).result.value);
  }

  lemma {:induction false} RowStaysNewest(before: seq<Txn>, after: seq<Txn>, reference: string, row: Txn)
    requires before <= after && UniqueReferences(after) && IsOrderReference(reference)
    requires row in before && row.reference == reference
    ensures Newest(after, reference) == Some(row)
  {
    var k :| 0 <= k < |before| && before[k] == row;
    UniqueRow(after, k, reference);
  }

  lemma {:induction false} RepeatGivesRow(seen: seq<Txn>, now: State, early: bool, call: OrderCall, row: Txn)
    requires UniqueReferences(now.ledger) && seen <= now.ledger && IsOrderReference(Strip(call.reference))
    requires Newest(now.ledger, Strip(call.reference)) == Some(row) && Matches(row, call)
    ensures var again := OrderStock(seen, now, early, call);
      && again.after == now && (again.result.Ok? ==> again.result == Ok(row))
      && (Newest(seen, Strip(call.reference)).Some? ==> again.result == Ok(row))
  {
    OrderStockOutcome(seen, now, early, call);
  }

  lemma {:induction false} FirstCallLeavesRow(seen: seq<Txn>, now: State, early: bool, call: OrderCall)
    requires OrderStock(seen, now, early, call).result.Ok?
    requires seen <= now.ledger
    ensures var o := OrderStock(seen, now, early, call);
      o.result.value in o.after.ledger && Matches(o.result.value, call)
      && o.result.value.reference == Strip(call.reference) && IsOrderReference(Strip(call.reference))
  {
  }
}
