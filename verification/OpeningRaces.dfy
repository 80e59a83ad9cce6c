/** Initialisation among rivals: what is checked before the lock may be out of date behind it. */
module OpeningRaces {
  import opened Wrappers
  import opened Inventory
  import opened InventoryLaws
  import opened InventoryRuns

  // ----- Rivals -----

  lemma {:induction false} MovementReplays(s: State, m: Movement, initial: seq<int>)
    requires AllReplay(s, initial)
    ensures AllReplay(AfterMove(s, m), initial) && s.ledger <= AfterMove(s, m).ledger
  {
    MoveKeepsReferences(s, m);
    forall p | 0 <= p < |initial|
      ensures |AfterMove(s, m).products| == |s.products| && Replays(AfterMove(s, m), p, initial[p])
    {
      MoveReplays(s, m, p, initial[p]);
    }
    assert |AfterMove(s, m).products| == |s.products|;
  }

  lemma {:induction false} RivalsReplay(s: State, ms: seq<Movement>, initial: seq<int>)
    requires AllReplay(s, initial)
    ensures AllReplay(AfterAll(s, ms), initial)
    decreases |ms|
  {
    if ms != [] {
      MovementReplays(s, ms[0], initial);
      RivalsReplay(AfterMove(s, ms[0]), ms[1..], initial);
    }
  }

  lemma {:induction false} RivalsOnlyAppend(s: State, ms: seq<Movement>)
    ensures s.ledger <= AfterAll(s, ms).ledger
    decreases |ms|
  {
    if ms != [] {
      MoveKeepsReferences(s, ms[0]);
      RivalsOnlyAppend(AfterMove(s, ms[0]), ms[1..]);
    }
  }

  // ----- One candidate -----

  /** The state in which the conversion of a candidate finds its locked row. */
  function Locked(s: State, turn: Turn): State {
    AfterAll(AfterAll(s, turn.before), turn.between)
  }

  /** The look found no history, yet a rival had left some by the time of the lock, and the conversion went through. */
  predicate LostRace(s: State, c: Candidate, turn: Turn) {
    && !HasHistory(AfterAll(s, turn.before).ledger, c.product) && c.balance > 0
    && Convert(Locked(s, turn), c.product, c.store, INITIALISED, "").Ok?
    && HasHistory(Locked(s, turn).ledger, c.product)
  }

  lemma {:induction false} OneOnlyAppends(s: State, c: Candidate, turn: Turn)
    ensures s.ledger <= InitialiseOne(s, c, turn).after.ledger
  {
    RivalsOnlyAppend(s, turn.before);
    var locked := Locked(s, turn);
    RivalsOnlyAppend(AfterAll(s, turn.before), turn.between);
    var conversion := Convert(locked, c.product, c.store, INITIALISED, "");
    if conversion.Ok? {
      ConversionKeepsReferences(locked, c.product, c.store, INITIALISED, "");
      RivalsOnlyAppend(conversion.value.after, turn.behind);
    }
  }

  /** After one candidate every ledger still replays if and only if no rival got in between its look and its lock. */
  lemma {:induction false} OneReplaysIff(s: State, c: Candidate, turn: Turn, initial: seq<int>)
    requires AllReplay(s, initial)
    ensures !LostRace(s, c, turn) ==> AllReplay(InitialiseOne(s, c, turn).after, initial)
    ensures LostRace(s, c, turn) ==>
      c.product < |initial| && !Chained(InitialiseOne(s, c, turn).after.ledger, c.product)
  {
    var looked, locked := AfterAll(s, turn.before), Locked(s, turn);
    RivalsReplay(s, turn.before, initial);
    RivalsReplay(looked, turn.between, initial);
    var conversion := Convert(locked, c.product, c.store, INITIALISED, "");
    if conversion.Ok? {
      if HasHistory(locked.ledger, c.product) {
        RacedConversionBreaks(locked, c, turn.behind, initial);
      } else {
        ConversionKeepsAll(locked, c, initial);
        RivalsReplay(conversion.value.after, turn.behind, initial);
      }
    }
  }

  lemma {:induction false} ConversionKeepsAll(s: State, c: Candidate, initial: seq<int>)
    requires AllReplay(s, initial) && !HasHistory(s.ledger, c.product)
    requires Convert(s, c.product, c.store, INITIALISED, "").Ok?
    ensures AllReplay(Convert(s, c.product, c.store, INITIALISED, "").value.after, initial)
  {
    ConversionKeepsReferences(s, c.product, c.store, INITIALISED, "");
    forall p | 0 <= p < |initial|
      ensures Replays(Convert(s, c.product, c.store, INITIALISED, "").value.after, p, initial[p])
    {
      ConversionReplays(s, c.product, c.store, INITIALISED, "", p, initial[p]);
    }
  }

  lemma {:induction false} RacedConversionBreaks(s: State, c: Candidate, behind: seq<Movement>, initial: seq<int>)
    requires AllReplay(s, initial) && HasHistory(s.ledger, c.product)
    requires Convert(s, c.product, c.store, INITIALISED, "").Ok?
    ensures c.product < |initial|
    ensures !Chained(AfterAll(Convert(s, c.product, c.store, INITIALISED, "").value.after, behind).ledger, c.product)
  {
    assert Replays(s, c.product, initial[c.product]);
    DirectConversionChainsIff(s, c.product, c.store, INITIALISED, "", initial[c.product]);
    var after := Convert(s, c.product, c.store, INITIALISED, "").value.after;
    RivalsOnlyAppend(after, behind);
    if Chained(AfterAll(after, behind).ledger, c.product) {
      ChainedPrefix(after.ledger, AfterAll(after, behind).ledger, c.product);
    }
  }

  // ----- The whole loop -----

  /** No candidate the loop got to lost its race. */
  predicate Undisturbed(s: State, candidates: seq<Candidate>, turns: seq<Turn>)
    requires |turns| == |candidates|
    decreases |candidates|
  {
    candidates == [] ||
    (!LostRace(s, candidates[0], turns[0])
     && var first := InitialiseOne(s, candidates[0], turns[0]);
        first.failure.Some? || Undisturbed(first.after, candidates[1..], turns[1..]))
  }

  lemma {:induction false} EachOnlyAppends(s: State, candidates: seq<Candidate>, turns: seq<Turn>)
    requires |turns| == |candidates|
    ensures s.ledger <= InitialiseEach(s, candidates, turns).after.ledger
    decreases |candidates|
  {
    if candidates != [] {
      OneOnlyAppends(s, candidates[0], turns[0]);
      EachOnlyAppends(InitialiseOne(s, candidates[0], turns[0]).after, candidates[1..], turns[1..]);
    }
  }

  /**
   * Whatever candidates it has read and whatever rivals commit around each of them, the initialisation
   * leaves every ledger replaying if and only if no candidate it got to lost the race between its
   * unlocked look for history and the lock of its conversion.
   */
  lemma {:induction false} InitialisationReplaysIff(s: State, candidates: seq<Candidate>, turns: seq<Turn>, initial: seq<int>)
    requires |turns| == |candidates| && AllReplay(s, initial)
    ensures AllReplay(InitialiseEach(s, candidates, turns).after, initial) <==> Undisturbed(s, candidates, turns)
    decreases |candidates|
  {
    if candidates != [] {
      var c, first := candidates[0], InitialiseOne(s, candidates[0], turns[0]);
      OneReplaysIff(s, c, turns[0], initial);
      if LostRace(s, c, turns[0]) {
        EachOnlyAppends(first.after, candidates[1..], turns[1..]);
        var after := InitialiseEach(s, candidates, turns).after;
        if AllReplay(after, initial) {
          assert Replays(after, c.product, initial[c.product]);
          ChainedPrefix(first.after.ledger, after.ledger, c.product);
        }
      } else if first.failure.None? {
        InitialisationReplaysIff(first.after, candidates[1..], turns[1..], initial);
      }
    }
  }

  // ----- Without rivals -----

  const QUIET := Turn([], [], [])

  function Quiet(n: nat): seq<Turn> {
    seq(n, _ => QUIET)
  }

  lemma {:induction false} SameCandidates(s: State, t: State, from: nat)
    requires t.products == s.products
    requires forall p: nat :: p >= from ==> (HasHistory(t.ledger, p) <==> HasHistory(s.ledger, p))
    ensures CandidatesFrom(t, from) == CandidatesFrom(s, from)
    decreases |s.products| - from
  {
    if from < |s.products| {
      SameCandidates(s, t, from + 1);
    }
  }

  lemma {:induction false} QuietOne(s: State, p: ProductId)
    requires NeedsOpening(s, p)
    ensures var c := Candidate(p, s.products[p].store, s.products[p].stock);
      var conversion := Apply(s, OpeningMovement(s, p, s.products[p].store, INITIALISED, ""), true);
      && conversion.Ok? && conversion.value.after == State(s.products, s.ledger + [conversion.value.row])
      && conversion.value.row.product == p
      && InitialiseOne(s, c, QUIET) == Initialised(conversion.value.after, [conversion.value.row], None)
  {
    OpeningApplies(s, p);
  }

  /** The loop over the candidates from `from` on, left alone, does what initialisation from there does. */
  predicate QuietAgrees(s: State, from: nat) {
    var candidates := CandidatesFrom(s, from);
    var r := InitialiseEach(s, candidates, Quiet(|candidates|));
    r.after == InitialiseFrom(s, from) && r.failure.None?
  }

  function Converted(s: State, p: ProductId): Result<Applied, Error>
    requires p < |s.products|
  {
    Apply(s, OpeningMovement(s, p, s.products[p].store, INITIALISED, ""), true)
  }

  lemma {:induction false} CandidatesAfter(s: State, p: ProductId)
    requires NeedsOpening(s, p)
    ensures Converted(s, p).Ok? && CandidatesFrom(Converted(s, p).value.after, p + 1) == CandidatesFrom(s, p + 1)
  {
    QuietOne(s, p);
    var conversion := Converted(s, p).value;
    forall q: nat | q >= p + 1 ensures HasHistory(conversion.after.ledger, q) <==> HasHistory(s.ledger, q) {
      HistoryPush(s.ledger, conversion.row, q);
    }
    SameCandidates(s, conversion.after, p + 1);
  }

  lemma {:induction false} QuietNext(s: State, from: nat)
    requires NeedsOpening(s, from) && Converted(s, from).Ok? && QuietAgrees(Converted(s, from).value.after, from + 1)
    requires CandidatesFrom(Converted(s, from).value.after, from + 1) == CandidatesFrom(s, from + 1)
    ensures QuietAgrees(s, from)
  {
    QuietOne(s, from);
    QuietStep(s, Candidate(from, s.products[from].store, s.products[from].stock), CandidatesFrom(s, from + 1));
  }

  lemma {:induction false} QuietFrom(s: State, from: nat)
    ensures QuietAgrees(s, from)
    decreases |s.products| - from
  {
    if from < |s.products| {
      if NeedsOpening(s, from) {
        CandidatesAfter(s, from);
        QuietFrom(Converted(s, from).value.after, from + 1);
        QuietNext(s, from);
      } else {
        QuietFrom(s, from + 1);
        assert CandidatesFrom(s, from) == CandidatesFrom(s, from + 1);
      }
    }
  }

  lemma {:induction false} QuietStep(s: State, c: Candidate, rest: seq<Candidate>)
    ensures var first := InitialiseOne(s, c, QUIET);
      var all, later := InitialiseEach(s, [c] + rest, Quiet(|rest| + 1)), InitialiseEach(first.after, rest, Quiet(|rest|));
      first.failure.None? ==> all.after == later.after && all.failure == later.failure
  {
    assert ([c] + rest)[1..] == rest && Quiet(|rest| + 1)[1..] == Quiet(|rest|);
  }

  /** Left alone, the loop over its candidates does what initialisation promises. */
  lemma {:induction false} QuietInitialisation(s: State)
    ensures var candidates := CandidatesFrom(s, 0);
      var r := InitialiseEach(s, candidates, Quiet(|candidates|));
      r.after == Initialise(s) && r.failure.None?
  {
    QuietFrom(s, 0);
  }

  // ----- A lost race -----

  /** One more unit arrives while five are being recorded as opening stock. */
  function Delivery(): Movement {
    Movement(0, 0, StockIn, 1000, "Delivery", "", None, 0, None, None, None, None)
  }

  /**
   * Five units on the shelf and no ledger; a stock-in of one commits between the look and the lock.
   * The initialisation raises because the balance changed, yet its opening row stays behind the
   * other row and the ledger no longer replays.
   */
  lemma {:induction false} RaceBreaksChain(s: State, turn: Turn)
    requires s == State([ProductRow(0, 5000)], []) && turn == Turn([], [Delivery()], [])
    ensures CandidatesFrom(s, 0) == [Candidate(0, 0, 5000)] && AllReplay(s, [5000])
    ensures var r := InitialiseEach(s, [Candidate(0, 0, 5000)], [turn]);
      r.failure == Some(BalanceChanged) && |r.after.ledger| == 2 && !AllReplay(r.after, [5000])
  {
    var c := Candidate(0, 0, 5000);
    assert CandidatesFrom(s, 1) == [];
    assert Replays(s, 0, 5000);
    var looked := AfterAll(s, []);
    var moved := AfterMove(s, Delivery());
    assert AfterAll(moved, []) == moved;
    assert [Delivery()][1..] == [];
    assert AfterAll(s, [Delivery()]) == moved;
    assert moved.ledger[0].product == 0 && HasHistory(moved.ledger, 0);
    ConversionAcceptedIff(moved, 0, 0, INITIALISED, "");
    InitialisationReplaysIff(s, [c], [turn], [5000]);
  }
}
