/** Slug allocation: the first of base, base-2, base-3, ... that no other row of the same scope carries. */
module Slugs {
  import opened Wrappers
  import opened Text

  /** `scope` is the store of a product; categories, brands and tags share one scope. */
  datatype Row = Row(scope: nat, slug: string)

  datatype Error = DuplicateSlug | NoSuchRow

  /** The candidate of probe `k`. */
  function Candidate(base: string, k: nat): string {
    if k == 0 then base else base + "-" + Decimal(k + 1)
  }

  predicate CarriedBy(rows: seq<Row>, i: nat, scope: nat, slug: string, exclude: Option<nat>) {
    i < |rows| && exclude != Some(i) && rows[i] == Row(scope, slug)
  }

  predicate Taken(rows: seq<Row>, scope: nat, slug: string, exclude: Option<nat>) {
    exists i: nat :: i < |rows| && CarriedBy(rows, i, scope, slug, exclude)
  }

  /** The slugs that block a row. */
  function TakenSlugs(rows: seq<Row>, scope: nat, exclude: Option<nat>): set<string> {
    set i: nat | i < |rows| && exclude != Some(i) && rows[i].scope == scope :: rows[i].slug
  }

  lemma {:induction false} TakenIsMember(rows: seq<Row>, scope: nat, slug: string, exclude: Option<nat>)
    ensures Taken(rows, scope, slug, exclude) <==> slug in TakenSlugs(rows, scope, exclude)
  {
    if slug in TakenSlugs(rows, scope, exclude) {
      var i: nat :| i < |rows| && exclude != Some(i) && rows[i].scope == scope && rows[i].slug == slug;
      assert CarriedBy(rows, i, scope, slug, exclude);
    }
  }

  lemma {:induction false} CandidateInjective(base: string, j: nat, k: nat)
    requires Candidate(base, j) == Candidate(base, k)
    ensures j == k
  {
    var a, b := Candidate(base, j), Candidate(base, k);
    if j > 0 && k > 0 {
      var n := |base| + 1;
      assert a[n..] == Decimal(j + 1) && b[n..] == Decimal(k + 1);
      DecimalInjective(j + 1, k + 1);
    } else {
      assert |a| == |b|;
    }
  }

  /** The first probe is the base itself, the second base-2, and each further one counts up by one. */
  lemma {:induction false} CandidatesCountUp(base: string, k: nat)
    ensures Candidate(base, 0) == base && Candidate(base, 1) == base + "-2" && Candidate(base, 9) == base + "-10"
    ensures k > 0 ==>
      exists suffix :: Candidate(base, k) == base + "-" + suffix && suffix != "" && suffix[0] != '0' && Value(suffix) == k + 1
  {
    DecimalReads(k + 1);
    if k > 0 {
      assert Candidate(base, k) == base + "-" + Decimal(k + 1);
    }
    assert Decimal(10) == Decimal(1) + ['0'];
  }

  function Candidates(base: string, k: nat): set<string> {
    set i: nat | i < k :: Candidate(base, i)
  }

  lemma {:induction false} CandidatesDiffer(base: string, k: nat)
    ensures |Candidates(base, k)| == k
  {
    if k == 0 {
      assert Candidates(base, 0) == {};
    } else {
      CandidatesDiffer(base, k - 1);
      NextCandidate(base, k - 1);
    }
  }

  lemma {:induction false} NextCandidate(base: string, k: nat)
    ensures Candidates(base, k + 1) == Candidates(base, k) + {Candidate(base, k)}
    ensures Candidate(base, k) !in Candidates(base, k)
  {
    forall i: nat | i < k ensures Candidate(base, i) != Candidate(base, k) {
      if Candidate(base, i) == Candidate(base, k) {
        CandidateInjective(base, i, k);
      }
    }
  }

  lemma {:induction false} SubsetSmaller(a: set<string>, b: set<string>)
    requires a <= b
    ensures |a| <= |b|
  {
    assert b == a + (b - a);
  }

  /** With n slugs taken, n refused probes are the most there can be. */
  lemma {:induction false} ProbesBounded(rows: seq<Row>, scope: nat, base: string, exclude: Option<nat>, k: nat)
    requires forall j: nat :: j < k ==> Taken(rows, scope, Candidate(base, j), exclude)
    ensures k <= |TakenSlugs(rows, scope, exclude)|
  {
    forall s | s in Candidates(base, k) ensures s in TakenSlugs(rows, scope, exclude) {
      TakenIsMember(rows, scope, s, exclude);
    }
    CandidatesDiffer(base, k);
    SubsetSmaller(Candidates(base, k), TakenSlugs(rows, scope, exclude));
  }

  /** `slug` is the answer of probe `k`: free, while every earlier candidate is taken. */
  predicate FirstFree(rows: seq<Row>, scope: nat, base: string, exclude: Option<nat>, k: nat) {
    && !Taken(rows, scope, Candidate(base, k), exclude)
    && forall j: nat :: j < k ==> Taken(rows, scope, Candidate(base, j), exclude)
  }

  /** `slug` is the first free candidate, found within one probe more than there are slugs in the way. */
  predicate Allocated(rows: seq<Row>, scope: nat, base: string, exclude: Option<nat>, slug: string) {
    exists k: nat :: k <= |TakenSlugs(rows, scope, exclude)| && FirstFree(rows, scope, base, exclude, k) && slug == Candidate(base, k)
  }

  /** The allocation loop. It ends, after at most one probe more than there are slugs in the way. */
  method UniqueSlug(rows: seq<Row>, scope: nat, base: string, exclude: Option<nat>) returns (slug: string, probes: nat)
    ensures 1 <= probes <= |TakenSlugs(rows, scope, exclude)| + 1
    ensures FirstFree(rows, scope, base, exclude, probes - 1) && slug == Candidate(base, probes - 1)
  {
    slug, probes := base, 1;
    var suffix := 2;
    while Taken(rows, scope, slug, exclude)
      invariant probes >= 1 && suffix == probes + 1
      invariant slug == Candidate(base, probes - 1)
      invariant forall j: nat :: j < probes - 1 ==> Taken(rows, scope, Candidate(base, j), exclude)
      invariant probes <= |TakenSlugs(rows, scope, exclude)| + 1
      decreases |TakenSlugs(rows, scope, exclude)| + 1 - probes
    {
      ProbesBounded(rows, scope, base, exclude, probes);
      slug := base + "-" + Decimal(suffix);
      suffix, probes := suffix + 1, probes + 1;
    }
  }

  // ----- Saves -----

  /** The slug column is unique within a scope. */
  predicate Distinct(rows: seq<Row>) {
    forall i, j :: 0 <= i < j < |rows| ==> rows[i] != rows[j]
  }

  /** Writing a row, subject to the unique constraint; `pk` is absent for a new row. */
  function Write(rows: seq<Row>, pk: Option<nat>, row: Row): Result<seq<Row>, Error> {
    if pk.Some? && pk.value >= |rows| then Err(NoSuchRow)
    else if Taken(rows, row.scope, row.slug, pk) then Err(DuplicateSlug)
    else Ok(if pk.Some? then rows[pk.value := row] else rows + [row])
  }

  lemma {:induction false} WriteKeepsDistinct(rows: seq<Row>, pk: Option<nat>, row: Row)
    requires Distinct(rows) && Write(rows, pk, row).Ok?
    ensures Distinct(Write(rows, pk, row).value)
  {
    var after := Write(rows, pk, row).value;
    var at := if pk.Some? then pk.value else |rows|;
    forall i | 0 <= i < |after| && i != at ensures after[i] != row {
      assert !CarriedBy(rows, i, row.scope, row.slug, pk);
    }
  }

  class SlugTable {
    var rows: seq<Row>

    constructor ()
      ensures rows == []
    {
      rows := [];
    }

    /**
     * `save`: an empty slug is allocated first. An allocated slug never meets the constraint, so
     * only a slug the caller chose can be refused, and uniqueness survives either way.
     */
    method Save(pk: Option<nat>, scope: nat, slug: string, base: string) returns (r: Result<string, Error>)
      requires Distinct(rows)
      modifies this
      ensures Distinct(rows)
      ensures r.Err? ==> rows == old(rows)
      ensures r.Ok? ==> Write(old(rows), pk, Row(scope, r.value)) == Ok(rows)
      ensures slug != "" ==> (r == match Write(old(rows), pk, Row(scope, slug)) case Ok(_) => Ok(slug) case Err(e) => Err(e))
      ensures slug == "" && (pk.Some? ==> pk.value < |old(rows)|) ==>
        r.Ok? && Allocated(old(rows), scope, base, pk, r.value)
    {
      var chosen := slug;
      if chosen == "" {
        var probes;
        chosen, probes := UniqueSlug(rows, scope, base, pk);
        assert FirstFree(rows, scope, base, pk, probes - 1);
      }
      var written := Write(rows, pk, Row(scope, chosen));
      if written.Err? {
        return Err(written.error);
      }
      WriteKeepsDistinct(rows, pk, Row(scope, chosen));
      rows := written.value;
      return Ok(chosen);
    }
  }
}
