/** Exactly one active default per customer with an active address, over every run of the services. */
module AddressLaws {
  import opened Wrappers
  import opened Addresses

  /** Row `d` is the active default of the customer, and the only one. */
  ghost predicate OnlyDefault(rows: Table, customer: nat, d: nat) {
    DefaultAt(rows, customer, d) && forall i: nat :: DefaultAt(rows, customer, i) ==> i == d
  }

  ghost predicate SettledFor(rows: Table, customer: nat) {
    HasActive(rows, customer, None) ==> exists d: nat :: OnlyDefault(rows, customer, d)
  }

  ghost predicate Settled(rows: Table) {
    forall customer: nat :: SettledFor(rows, customer)
  }

  /** Only row `pk` and the default flags of the customer's other rows differ. */
  predicate OnlyTouches(rows: Table, after: Table, customer: nat, pk: nat) {
    && |rows| <= |after| <= |rows| + 1
    && pk < |after| && after[pk].customer == customer && (|after| > |rows| ==> pk == |rows|)
    && (pk < |rows| ==> rows[pk].customer == customer)
    && forall i :: 0 <= i < |rows| && i != pk ==>
      && after[i] == rows[i].(isDefault := after[i].isDefault)
      && (rows[i].customer != customer ==> after[i] == rows[i])
  }

  lemma {:induction false} DefaultIsActive(rows: Table, customer: nat, i: nat)
    requires DefaultAt(rows, customer, i)
    ensures HasActive(rows, customer, None)
  {
    assert Serves(rows[i], customer);
  }

  lemma {:induction false} SettledHasNoTwo(rows: Table)
    requires Settled(rows)
    ensures !TwoDefaults(rows)
  {
    forall i, j | 0 <= i < |rows| && 0 <= j < |rows|
      && DefaultAt(rows, rows[i].customer, i) && DefaultAt(rows, rows[i].customer, j)
      ensures i == j
    {
      DefaultIsActive(rows, rows[i].customer, i);
      assert SettledFor(rows, rows[i].customer);
    }
  }

  /** Saving an active default: it becomes the customer's only one and the unique index is never hit. */
  lemma {:induction false} SaveAsDefault(rows: Table, pk: nat, row: Row)
    requires !TwoDefaults(rows) && pk <= |rows| && row.active && row.isDefault
    requires pk < |rows| ==> rows[pk].customer == row.customer
    ensures Save(rows, pk, row).Ok?
    ensures var after := Save(rows, pk, row).value;
      after == Put(Cleared(rows, row.customer, pk), pk, row) && OnlyDefault(after, row.customer, pk)
      && OnlyTouches(rows, after, row.customer, pk) && !TwoDefaults(after)
  {
    var after := Put(Cleared(rows, row.customer, pk), pk, row);
    assert forall c: nat, i: nat :: i != pk && DefaultAt(after, c, i) ==> DefaultAt(rows, c, i);
  }

  /** Saving any other row leaves the customer's remaining defaults as they were. */
  lemma {:induction false} SaveOther(rows: Table, pk: nat, row: Row)
    requires !TwoDefaults(rows) && pk <= |rows| && !(row.active && row.isDefault)
    requires pk < |rows| ==> rows[pk].customer == row.customer
    ensures Save(rows, pk, row) == Ok(Put(rows, pk, row))
    ensures OnlyTouches(rows, Put(rows, pk, row), row.customer, pk) && !TwoDefaults(Put(rows, pk, row))
  {
    var after := Put(rows, pk, row);
    assert forall c: nat, i: nat :: i != pk && DefaultAt(after, c, i) ==> DefaultAt(rows, c, i);
  }

  // ----- What each service makes the default -----

  lemma {:induction false} TouchesTwice(rows: Table, middle: Table, after: Table, customer: nat, pk: nat, other: nat)
    requires OnlyTouches(rows, middle, customer, pk) && OnlyTouches(middle, after, customer, other)
    requires |rows| == |middle| == |after| && after[other] == middle[other].(isDefault := after[other].isDefault)
    ensures OnlyTouches(rows, after, customer, pk)
  {
  }

  lemma {:induction false} SameReplacement(rows: Table, middle: Table, customer: nat, pk: nat, n: nat)
    requires |rows| == |middle| && n <= |rows|
    requires forall i :: 0 <= i < |rows| && i != pk ==> middle[i] == rows[i]
    ensures Youngest(middle, customer, pk, n) == Youngest(rows, customer, pk, n)
  {
    if n > 0 {
      SameReplacement(rows, middle, customer, pk, n - 1);
    }
  }

  /** Handing the default on: the youngest other active address gets it. */
  lemma {:induction false} PromoteOutcome(rows: Table, middle: Table, customer: nat, pk: nat, r: nat)
    requires pk < |rows| == |middle| && middle == rows[pk := middle[pk]] && OnlyTouches(rows, middle, customer, pk)
    requires !TwoDefaults(middle) && Replacement(rows, customer, pk) == Some(r)
    ensures Promote(middle, customer, pk).Ok?
    ensures var after := Promote(middle, customer, pk).value;
      && OnlyDefault(after, customer, r) && OnlyTouches(rows, after, customer, pk)
      && after[pk] == middle[pk].(isDefault := after[pk].isDefault)
      && (!middle[pk].isDefault ==> !after[pk].isDefault)
  {
    SameReplacement(rows, middle, customer, pk, |rows|);
    SaveAsDefault(middle, r, middle[r].(isDefault := true));
    var after := Promote(middle, customer, pk).value;
    TouchesTwice(rows, middle, after, customer, pk, r);
  }

  lemma {:induction false} StillDefault(rows: Table, after: Table, customer: nat, pk: nat, d: nat)
    requires OnlyDefault(rows, customer, d) && OnlyTouches(rows, after, customer, pk)
    requires forall i :: 0 <= i < |rows| && i != pk ==> after[i] == rows[i]
    requires d != pk && !DefaultAt(after, customer, pk)
    ensures OnlyDefault(after, customer, d)
  {
    forall i: nat | DefaultAt(after, customer, i) ensures i == d {
      assert DefaultAt(rows, customer, i);
    }
  }

  lemma {:induction false} CreateOutcome(rows: Table, customer: nat, form: Form, now: int)
    requires Settled(rows)
    ensures Create(rows, customer, form, now).Ok? <==> form.valid
    ensures Create(rows, customer, form, now).Ok? ==>
      var after := Create(rows, customer, form, now).value.after;
      && OnlyTouches(rows, after, customer, |rows|) && |after| == |rows| + 1
      && after[|rows|] == Row(customer, true, after[|rows|].isDefault, now, form.details)
      && (form.isDefault || !HasActive(rows, customer, None) ==> OnlyDefault(after, customer, |rows|))
      && (forall d: nat :: !form.isDefault && OnlyDefault(rows, customer, d) ==> OnlyDefault(after, customer, d))
  {
    if !form.valid {
      return;
    }
    SettledHasNoTwo(rows);
    var row := Row(customer, true, ResolveDefault(rows, customer, form.isDefault, None), now, form.details);
    if row.isDefault {
      SaveAsDefault(rows, |rows|, row);
    } else {
      SaveOther(rows, |rows|, row);
    }
    var after := Create(rows, customer, form, now).value.after;
    forall d: nat | !form.isDefault && OnlyDefault(rows, customer, d) ensures OnlyDefault(after, customer, d) {
      DefaultIsActive(rows, customer, d);
      StillDefault(rows, after, customer, |rows|, d);
    }
  }

  lemma {:induction false} SetDefaultOutcome(rows: Table, pk: nat)
    requires Settled(rows)
    ensures SetDefault(rows, pk).Ok? <==> pk < |rows| && rows[pk].active
    ensures SetDefault(rows, pk).Ok? ==>
      var after := SetDefault(rows, pk).value.after;
      && OnlyDefault(after, rows[pk].customer, pk) && OnlyTouches(rows, after, rows[pk].customer, pk)
      && after[pk] == rows[pk].(isDefault := true)
  {
    if pk < |rows| && rows[pk].active {
      SettledHasNoTwo(rows);
      SaveAsDefault(rows, pk, rows[pk].(isDefault := true));
    }
  }

  /** The default after an edit: asked for or the only active address, handed on, or left where it was. */
  ghost predicate UpdateDefault(rows: Table, after: Table, pk: nat, want: bool)
    requires pk < |rows|
  {
    var customer, r := rows[pk].customer, Replacement(rows, rows[pk].customer, pk);
    if want || r.None? then OnlyDefault(after, customer, pk)
    else if rows[pk].isDefault then OnlyDefault(after, customer, r.value)
    else forall d: nat :: OnlyDefault(rows, customer, d) ==> OnlyDefault(after, customer, d)
  }

  lemma {:induction false} UpdateOutcome(rows: Table, pk: nat, form: Form)
    requires Settled(rows)
    ensures Update(rows, pk, form).Ok? <==> pk < |rows| && rows[pk].active && form.valid
    ensures Update(rows, pk, form).Ok? ==>
      var after := Update(rows, pk, form).value.after;
      && UpdateDefault(rows, after, pk, form.isDefault) && OnlyTouches(rows, after, rows[pk].customer, pk)
      && after[pk] == rows[pk].(isDefault := after[pk].isDefault, details := form.details)
  {
    if pk < |rows| && rows[pk].active && form.valid {
      SettledHasNoTwo(rows);
      var row := rows[pk];
      var isDefault := ResolveDefault(rows, row.customer, form.isDefault, Some(pk));
      var changed := row.(isDefault := isDefault, details := form.details);
      if isDefault {
        SaveAsDefault(rows, pk, changed);
      } else {
        SaveOther(rows, pk, changed);
        var saved := Put(rows, pk, changed);
        if row.isDefault {
          PromoteOutcome(rows, saved, row.customer, pk, Replacement(rows, row.customer, pk).value);
        } else {
          forall d: nat | OnlyDefault(rows, row.customer, d) ensures OnlyDefault(saved, row.customer, d) {
            StillDefault(rows, saved, row.customer, pk, d);
          }
        }
      }
    }
  }

  /** The default after a deactivation: handed to the youngest active address left, or gone with the last one. */
  ghost predicate DeactivateDefault(rows: Table, after: Table, pk: nat)
    requires pk < |rows|
  {
    var customer, r := rows[pk].customer, Replacement(rows, rows[pk].customer, pk);
    && (r.None? ==> !HasActive(after, customer, None))
    && (r.Some? && rows[pk].isDefault ==> OnlyDefault(after, customer, r.value))
    && (!rows[pk].isDefault ==> forall d: nat :: OnlyDefault(rows, customer, d) ==> OnlyDefault(after, customer, d))
  }

  lemma {:induction false} DeactivateOutcome(rows: Table, pk: nat)
    requires Settled(rows)
    ensures Deactivate(rows, pk).Ok? <==> pk < |rows|
    ensures pk < |rows| && !rows[pk].active ==> Deactivate(rows, pk) == Ok(Done(rows, pk))
    ensures pk < |rows| && rows[pk].active ==>
      var after := Deactivate(rows, pk).value.after;
      && DeactivateDefault(rows, after, pk) && OnlyTouches(rows, after, rows[pk].customer, pk)
      && after[pk] == rows[pk].(active := false, isDefault := false)
  {
    if pk < |rows| && rows[pk].active {
      SettledHasNoTwo(rows);
      var row := rows[pk];
      var off := row.(active := false, isDefault := false);
      SaveOther(rows, pk, off);
      var saved, r := Put(rows, pk, off), Replacement(rows, row.customer, pk);
      SameReplacement(rows, saved, row.customer, pk, |rows|);
      if r.None? {
        assert !HasActive(saved, row.customer, Some(pk));
        NoneLeft(saved, row.customer, pk);
      }
      if row.isDefault && r.Some? {
        PromoteOutcome(rows, saved, row.customer, pk, r.value);
      }
      if !row.isDefault {
        forall d: nat | OnlyDefault(rows, row.customer, d) ensures OnlyDefault(saved, row.customer, d) {
          StillDefault(rows, saved, row.customer, pk, d);
        }
      }
    }
  }

  lemma {:induction false} NoneLeft(rows: Table, customer: nat, pk: nat)
    requires pk < |rows| && !rows[pk].active && !HasActive(rows, customer, Some(pk))
    ensures !HasActive(rows, customer, None)
  {
    assert forall i: nat :: i < |rows| && Serves(rows[i], customer) ==> i != pk;
  }

  // ----- Runs -----

  datatype Event =
    | Created(customer: nat, form: Form, now: int)
    | Updated(pk: nat, form: Form)
    | MadeDefault(pk: nat)
    | Deactivated(pk: nat)

  function Attempt(rows: Table, e: Event): Result<Done, Error> {
    match e
    case Created(customer, form, now) => Create(rows, customer, form, now)
    case Updated(pk, form) => Update(rows, pk, form)
    case MadeDefault(pk) => SetDefault(rows, pk)
    case Deactivated(pk) => Deactivate(rows, pk)
  }

  function Next(rows: Table, e: Event): Table {
    match Attempt(rows, e)
    case Ok(done) => done.after
    case Err(_) => rows
  }

  /** Whose addresses an event is about. */
  function Owner(rows: Table, e: Event): Option<nat> {
    match e
    case Created(customer, _, _) => Some(customer)
    case Updated(pk, _) => if pk < |rows| then Some(rows[pk].customer) else None
    case MadeDefault(pk) => if pk < |rows| then Some(rows[pk].customer) else None
    case Deactivated(pk) => if pk < |rows| then Some(rows[pk].customer) else None
  }

  function Subject(rows: Table, e: Event): nat {
    match e
    case Created(_, _, _) => |rows|
    case Updated(pk, _) => pk
    case MadeDefault(pk) => pk
    case Deactivated(pk) => pk
  }

  lemma {:induction false} OthersSettled(rows: Table, after: Table, customer: nat, pk: nat, other: nat)
    requires OnlyTouches(rows, after, customer, pk) && other != customer && SettledFor(rows, other)
    ensures SettledFor(after, other)
  {
    if HasActive(after, other, None) {
      var i: nat :| i < |after| && Serves(after[i], other);
      assert i < |rows| && i != pk && Serves(rows[i], other);
      var d: nat :| OnlyDefault(rows, other, d);
      assert d != pk && DefaultAt(after, other, d);
      forall k: nat | DefaultAt(after, other, k) ensures k == d {
        assert DefaultAt(rows, other, k);
      }
      assert OnlyDefault(after, other, d);
    }
  }

  lemma {:induction false} OwnerSettled(rows: Table, e: Event)
    requires Settled(rows) && Attempt(rows, e).Ok?
    ensures Owner(rows, e).Some? && SettledFor(Next(rows, e), Owner(rows, e).value)
    ensures Next(rows, e) == rows || OnlyTouches(rows, Next(rows, e), Owner(rows, e).value, Subject(rows, e))
  {
    match e {
      case Created(customer, form, now) =>
        CreateOutcome(rows, customer, form, now);
        assert SettledFor(rows, customer);
      case Updated(pk, form) =>
        UpdateOutcome(rows, pk, form);
        OwnHasDefault(rows, pk);
      case MadeDefault(pk) =>
        SetDefaultOutcome(rows, pk);
      case Deactivated(pk) =>
        DeactivateOutcome(rows, pk);
        OwnHasDefault(rows, pk);
    }
  }

  lemma {:induction false} OwnHasDefault(rows: Table, pk: nat)
    requires Settled(rows) && pk < |rows|
    ensures SettledFor(rows, rows[pk].customer)
    ensures rows[pk].active ==> exists d: nat :: OnlyDefault(rows, rows[pk].customer, d)
  {
    assert SettledFor(rows, rows[pk].customer);
    if rows[pk].active {
      assert Serves(rows[pk], rows[pk].customer);
    }
  }

  /** One service call: the rule holds again and no other customer's rows change. */
  lemma {:induction false} StepSettled(rows: Table, e: Event)
    requires Settled(rows)
    ensures Settled(Next(rows, e))
    ensures |rows| <= |Next(rows, e)|
    ensures forall i :: 0 <= i < |rows| && Owner(rows, e) != Some(rows[i].customer) ==> Next(rows, e)[i] == rows[i]
  {
    if Attempt(rows, e).Ok? {
      OwnerSettled(rows, e);
      var after, owner := Next(rows, e), Owner(rows, e).value;
      if after != rows {
        forall customer: nat ensures SettledFor(after, customer) {
          if customer != owner {
            OthersSettled(rows, after, owner, Subject(rows, e), customer);
          }
        }
      }
    }
  }

  predicate IsRun(states: seq<Table>, events: seq<Event>) {
    |states| == |events| + 1 && forall i :: 0 <= i < |events| ==> states[i + 1] == Next(states[i], events[i])
  }

  /** Over every run, a customer with an active address has exactly one active default. */
  lemma {:induction false} RunSettled(states: seq<Table>, events: seq<Event>, k: nat)
    requires IsRun(states, events) && Settled(states[0]) && k < |states|
    ensures Settled(states[k])
  {
    if k > 0 {
      RunSettled(states, events, k - 1);
      StepSettled(states[k - 1], events[k - 1]);
    }
  }

  /** A customer none of the events is about keeps every address as it was. */
  lemma {:induction false} StrangersUntouched(states: seq<Table>, events: seq<Event>, customer: nat, k: nat)
    requires IsRun(states, events) && Settled(states[0]) && k < |states|
    requires forall i :: 0 <= i < k ==> Owner(states[i], events[i]) != Some(customer)
    ensures |states[0]| <= |states[k]|
    ensures forall i :: 0 <= i < |states[0]| && states[0][i].customer == customer ==> states[k][i] == states[0][i]
  {
    if k > 0 {
      StrangersUntouched(states, events, customer, k - 1);
      RunSettled(states, events, k - 1);
      StepSettled(states[k - 1], events[k - 1]);
    }
  }
}
