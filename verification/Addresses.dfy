/** Delivery addresses of customers and the one that is their default. */
module Addresses {
  // Rows are identified by their position; `created` orders them by age.

  import opened Wrappers

  datatype Row = Row(customer: nat, active: bool, isDefault: bool, created: int, details: nat)

  type Table = seq<Row>

  datatype Error = NoSuchAddress | InactiveAddress | InvalidData | DuplicateDefault

  /** `pk` is the row a service returns. */
  datatype Done = Done(after: Table, pk: nat)

  predicate Serves(row: Row, customer: nat) {
    row.customer == customer && row.active
  }

  predicate DefaultAt(rows: Table, customer: nat, i: int) {
    0 <= i < |rows| && Serves(rows[i], customer) && rows[i].isDefault
  }

  predicate HasActive(rows: Table, customer: nat, exclude: Option<nat>) {
    exists i: nat :: i < |rows| && exclude != Some(i) && Serves(rows[i], customer)
  }

  // ----- The model's own save -----

  /** Other active defaults of the customer are switched off first. */
  function Cleared(rows: Table, customer: nat, except: nat): (r: Table)
    ensures |r| == |rows|
  {
    seq(|rows|, i requires 0 <= i < |rows| =>
      if i != except && DefaultAt(rows, customer, i) then rows[i].(isDefault := false) else rows[i])
  }

  function Put(rows: Table, pk: nat, row: Row): Table
    requires pk <= |rows|
  {
    if pk < |rows| then rows[pk := row] else rows + [row]
  }

  /** What the partial unique index refuses. */
  predicate TwoDefaults(rows: Table) {
    exists i, j :: 0 <= i < j < |rows| && rows[i].customer == rows[j].customer
      && DefaultAt(rows, rows[i].customer, i) && DefaultAt(rows, rows[i].customer, j)
  }

  function Save(rows: Table, pk: nat, row: Row): Result<Table, Error>
    requires pk <= |rows|
  {
    var base := if row.isDefault && row.active then Cleared(rows, row.customer, pk) else rows;
    var after := Put(base, pk, row);
    if TwoDefaults(after) then Err(DuplicateDefault) else Ok(after)
  }

  // ----- Choosing a replacement -----

  /** The youngest active address of the customer other than `exclude`; the later row on a tie. */
  function Youngest(rows: Table, customer: nat, exclude: nat, n: nat): (r: Option<nat>)
    requires n <= |rows|
    ensures r.Some? ==> r.value < n && r.value != exclude && Serves(rows[r.value], customer)
    ensures forall i :: 0 <= i < n && i != exclude && Serves(rows[i], customer) ==>
      r.Some? && rows[i].created <= rows[r.value].created && (rows[i].created == rows[r.value].created ==> i <= r.value)
  {
    if n == 0 then None
    else
      var best := Youngest(rows, customer, exclude, n - 1);
      if n - 1 != exclude && Serves(rows[n - 1], customer)
        && (best.None? || rows[best.value].created <= rows[n - 1].created)
      then Some(n - 1) else best
  }

  function Replacement(rows: Table, customer: nat, exclude: nat): (r: Option<nat>)
    ensures r.Some? ==> r.value < |rows| && r.value != exclude && Serves(rows[r.value], customer)
    ensures r.None? <==> !HasActive(rows, customer, Some(exclude))
    ensures forall i :: 0 <= i < |rows| && i != exclude && Serves(rows[i], customer) ==>
      r.Some? && rows[i].created <= rows[r.value].created && (rows[i].created == rows[r.value].created ==> i <= r.value)
  {
    Youngest(rows, customer, exclude, |rows|)
  }

  /** Makes the replacement the default, if there is one. */
  function Promote(rows: Table, customer: nat, exclude: nat): Result<Table, Error> {
    var r := Replacement(rows, customer, exclude);
    if r.None? then Ok(rows) else Save(rows, r.value, rows[r.value].(isDefault := true))
  }

  // ----- Services -----

  function ResolveDefault(rows: Table, customer: nat, want: bool, exclude: Option<nat>): bool {
    !HasActive(rows, customer, exclude) || want
  }

  /** The submitted fields; `valid` is the outcome of field validation. */
  datatype Form = Form(details: nat, isDefault: bool, valid: bool)

  function Create(rows: Table, customer: nat, form: Form, now: int): Result<Done, Error> {
    if !form.valid then Err(InvalidData)
    else
      var isDefault := ResolveDefault(rows, customer, form.isDefault, None);
      match Save(rows, |rows|, Row(customer, true, isDefault, now, form.details))
      case Err(error) => Err(error)
      case Ok(after) => Ok(Done(after, |rows|))
  }

  function Update(rows: Table, pk: nat, form: Form): Result<Done, Error> {
    if pk >= |rows| then Err(NoSuchAddress)
    else if !rows[pk].active then Err(InactiveAddress)
    else if !form.valid then Err(InvalidData)
    else
      var row := rows[pk];
      var isDefault := ResolveDefault(rows, row.customer, form.isDefault, Some(pk));
      match Save(rows, pk, row.(isDefault := isDefault, details := form.details))
      case Err(error) => Err(error)
      case Ok(saved) =>
        if row.isDefault && !isDefault then
          match Promote(saved, row.customer, pk)
          case Err(error) => Err(error)
          case Ok(after) => Ok(Done(after, pk))
        else Ok(Done(saved, pk))
  }

  function SetDefault(rows: Table, pk: nat): Result<Done, Error> {
    if pk >= |rows| then Err(NoSuchAddress)
    else if !rows[pk].active then Err(InactiveAddress)
    else
      match Save(rows, pk, rows[pk].(isDefault := true))
      case Err(error) => Err(error)
      case Ok(after) => Ok(Done(after, pk))
  }

  function Deactivate(rows: Table, pk: nat): Result<Done, Error> {
    if pk >= |rows| then Err(NoSuchAddress)
    else if !rows[pk].active then Ok(Done(rows, pk))
    else
      var row := rows[pk];
      match Save(rows, pk, row.(active := false, isDefault := false))
      case Err(error) => Err(error)
      case Ok(saved) =>
        if row.isDefault then
          match Promote(saved, row.customer, pk)
          case Err(error) => Err(error)
          case Ok(after) => Ok(Done(after, pk))
        else Ok(Done(saved, pk))
  }
}
