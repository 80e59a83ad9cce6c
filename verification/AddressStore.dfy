/** The address services as they run, on rows updated in place. */
module AddressStore {
  import opened Wrappers
  import opened Addresses

  class AddressStore {
    var rows: seq<Row>

    constructor (rows: seq<Row>)
      ensures this.rows == rows
    {
      this.rows := rows;
    }

    /** The bulk update inside `save`: other active defaults of the customer go off. */
    method ClearOtherDefaults(customer: nat, except: nat)
      modifies this
      ensures rows == Cleared(old(rows), customer, except)
    {
      var i := 0;
      while i < |rows|
        invariant i <= |rows| == |old(rows)|
        invariant forall j :: 0 <= j < |rows| ==> rows[j] == if j < i then Cleared(old(rows), customer, except)[j] else old(rows)[j]
      {
        if i != except && DefaultAt(rows, customer, i) {
          rows := rows[i := rows[i].(isDefault := false)];
        }
        i := i + 1;
      }
    }

    /** `CustomerAddress.save` of row `pk`, or of a new row when `pk` is the next key. */
    method SaveRow(pk: nat, row: Row) returns (failure: Option<Error>)
      requires pk <= |rows|
      modifies this
      ensures match Save(old(rows), pk, row)
        case Ok(after) => failure.None? && rows == after
        case Err(error) => failure == Some(error) && rows == old(rows)
    {
      var savepoint := rows;
      if row.isDefault && row.active {
        ClearOtherDefaults(row.customer, pk);
      }
      rows := Put(rows, pk, row);
      if TwoDefaults(rows) {
        rows := savepoint;
        return Some(DuplicateDefault);
      }
      return None;
    }

    method YoungestActive(customer: nat, exclude: nat) returns (r: Option<nat>)
      ensures r == Replacement(rows, customer, exclude)
    {
      r := None;
      var n := 0;
      while n < |rows|
        invariant n <= |rows| && r == Youngest(rows, customer, exclude, n)
      {
        if n != exclude && Serves(rows[n], customer) && (r.None? || rows[r.value].created <= rows[n].created) {
          r := Some(n);
        }
        n := n + 1;
      }
    }

    method PromoteReplacement(customer: nat, exclude: nat) returns (failure: Option<Error>)
      modifies this
      ensures match Promote(old(rows), customer, exclude)
        case Ok(after) => failure.None? && rows == after
        case Err(error) => failure == Some(error)
    {
      var replacement := YoungestActive(customer, exclude);
      if replacement.None? { return None; }
      failure := SaveRow(replacement.value, rows[replacement.value].(isDefault := true));
    }

    method CreateAddress(customer: nat, form: Form, now: int) returns (failure: Option<Error>)
      modifies this
      ensures match Create(old(rows), customer, form, now)
        case Ok(done) => failure.None? && rows == done.after
        case Err(error) => failure == Some(error) && rows == old(rows)
    {
      var isDefault := ResolveDefault(rows, customer, form.isDefault, None);
      if !form.valid { return Some(InvalidData); }
      failure := SaveRow(|rows|, Row(customer, true, isDefault, now, form.details));
    }

    method UpdateAddress(pk: nat, form: Form) returns (failure: Option<Error>)
      modifies this
      ensures match Update(old(rows), pk, form)
        case Ok(done) => failure.None? && rows == done.after
        case Err(error) => failure == Some(error) && rows == old(rows)
    {
      if pk >= |rows| { return Some(NoSuchAddress); }
      var row, savepoint := rows[pk], rows;
      if !row.active { return Some(InactiveAddress); }
      var isDefault := ResolveDefault(rows, row.customer, form.isDefault, Some(pk));
      if !form.valid { return Some(InvalidData); }
      failure := SaveRow(pk, row.(isDefault := isDefault, details := form.details));
      if failure.None? && row.isDefault && !isDefault {
        failure := PromoteReplacement(row.customer, pk);
        if failure.Some? {
          rows := savepoint;
        }
      }
    }

    method SetAsDefault(pk: nat) returns (failure: Option<Error>)
      modifies this
      ensures match SetDefault(old(rows), pk)
        case Ok(done) => failure.None? && rows == done.after
        case Err(error) => failure == Some(error) && rows == old(rows)
    {
      if pk >= |rows| { return Some(NoSuchAddress); }
      if !rows[pk].active { return Some(InactiveAddress); }
      failure := SaveRow(pk, rows[pk].(isDefault := true));
    }

    method DeactivateAddress(pk: nat) returns (failure: Option<Error>)
      modifies this
      ensures match Deactivate(old(rows), pk)
        case Ok(done) => failure.None? && rows == done.after
        case Err(error) => failure == Some(error) && rows == old(rows)
    {
      if pk >= |rows| { return Some(NoSuchAddress); }
      var row, savepoint := rows[pk], rows;
      if !row.active { return None; }
      failure := SaveRow(pk, row.(active := false, isDefault := false));
      if failure.None? && row.isDefault {
        failure := PromoteReplacement(row.customer, pk);
        if failure.Some? {
          rows := savepoint;
        }
      }
    }
  }
}
