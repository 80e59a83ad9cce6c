/** Stable sorting by an integer key, and the runs of equal keys that `itertools.groupby` yields. */
module Sorting {
  import opened Sums

  /** Puts `x` after every row whose key is not larger, as a stable sort does. */
  function Insert<T>(xs: seq<T>, x: T, key: T -> int): seq<T> {
    if xs == [] then [x]
    else
      var n := |xs| - 1;
      if key(xs[n]) <= key(x) then xs + [x] else Insert(xs[..n], x, key) + [xs[n]]
  }

  function SortBy<T>(xs: seq<T>, key: T -> int): seq<T> {
    if xs == [] then [] else Insert(SortBy(xs[..|xs| - 1], key), xs[|xs| - 1], key)
  }

  predicate Sorted<T>(xs: seq<T>, key: T -> int) {
    forall i, j :: 0 <= i < j < |xs| ==> key(xs[i]) <= key(xs[j])
  }

  lemma {:induction false} InsertKeeps<T>(xs: seq<T>, x: T, key: T -> int)
    ensures multiset(Insert(xs, x, key)) == multiset(xs) + multiset{x}
    ensures Sorted(xs, key) ==> Sorted(Insert(xs, x, key), key)
  {
    if xs != [] {
      var n := |xs| - 1;
      assert xs == xs[..n] + [xs[n]];
      if key(xs[n]) > key(x) {
        InsertKeeps(xs[..n], x, key);
        if Sorted(xs, key) {
          InsertBelow(xs[..n], x, key, key(xs[n]));
        }
      }
    }
  }

  lemma {:induction false} InsertBelow<T>(xs: seq<T>, x: T, key: T -> int, bound: int)
    requires key(x) <= bound && forall i :: 0 <= i < |xs| ==> key(xs[i]) <= bound
    ensures forall i :: 0 <= i < |Insert(xs, x, key)| ==> key(Insert(xs, x, key)[i]) <= bound
  {
    if xs != [] {
      InsertBelow(xs[..|xs| - 1], x, key, bound);
    }
  }

  /** A sorted rearrangement of the same rows. */
  lemma {:induction false} SortByKeeps<T>(xs: seq<T>, key: T -> int)
    ensures multiset(SortBy(xs, key)) == multiset(xs)
    ensures |SortBy(xs, key)| == |xs|
    ensures Sorted(SortBy(xs, key), key)
  {
    if xs != [] {
      var n := |xs| - 1;
      assert xs == xs[..n] + [xs[n]];
      SortByKeeps(xs[..n], key);
      InsertKeeps(SortBy(xs[..n], key), xs[n], key);
      assert |multiset(SortBy(xs, key))| == |multiset(xs)|;
    }
  }

  predicate DistinctBy<T>(xs: seq<T>, key: T -> int) {
    forall i, j :: 0 <= i < j < |xs| ==> key(xs[i]) != key(xs[j])
  }

  function Has<T>(key: T -> int, k: int): T -> int {
    (x: T) => if key(x) == k then 1 else 0
  }

  lemma {:induction false} DistinctCountsOnce<T>(xs: seq<T>, key: T -> int, k: int)
    requires DistinctBy(xs, key)
    ensures 0 <= Sum(xs, Has(key, k)) <= 1
  {
    if xs != [] {
      var n := |xs| - 1;
      DistinctCountsOnce(xs[..n], key, k);
      if key(xs[n]) == k {
        SumZero(xs[..n], Has(key, k));
      }
    }
  }

  lemma {:induction false} RepeatCountsTwice<T>(xs: seq<T>, key: T -> int, i: nat, j: nat)
    requires i < j < |xs| && key(xs[i]) == key(xs[j])
    ensures Sum(xs, Has(key, key(xs[i]))) >= 2
  {
    var f := Has(key, key(xs[i]));
    var rest := xs[..j] + xs[j + 1..];
    SumWithout(xs, j, f);
    assert rest[i] == xs[i];
    SumAtLeast(rest, f, i);
  }

  /** Rearranging rows with distinct keys leaves the keys distinct. */
  lemma {:induction false} DistinctPermuted<T>(xs: seq<T>, ys: seq<T>, key: T -> int)
    requires multiset(xs) == multiset(ys) && DistinctBy(xs, key)
    ensures DistinctBy(ys, key)
  {
    forall i, j | 0 <= i < j < |ys| ensures key(ys[i]) != key(ys[j]) {
      if key(ys[i]) == key(ys[j]) {
        DistinctCountsOnce(xs, key, key(ys[i]));
        SumPermuted(xs, ys, Has(key, key(ys[i])));
        RepeatCountsTwice(ys, key, i, j);
      }
    }
  }

  lemma {:induction false} PermutedMembers<T>(xs: seq<T>, ys: seq<T>)
    requires multiset(xs) == multiset(ys)
    ensures |xs| == |ys|
    ensures forall i :: 0 <= i < |ys| ==> ys[i] in xs
  {
    assert |multiset(xs)| == |multiset(ys)|;
    forall i | 0 <= i < |ys| ensures ys[i] in xs {
      assert ys[i] in multiset(ys);
    }
  }

  datatype Group<T> = Group(key: int, rows: seq<T>)

  /** Adding one row to the last group, or opening a new one. */
  function Extend<T>(groups: seq<Group<T>>, x: T, k: int): seq<Group<T>> {
    var g := |groups| - 1;
    if groups != [] && groups[g].key == k
    then groups[..g] + [Group(k, groups[g].rows + [x])]
    else groups + [Group(k, [x])]
  }

  /** Maximal runs of rows with the same key, in order. */
  function GroupRuns<T>(xs: seq<T>, key: T -> int): seq<Group<T>> {
    if xs == [] then []
    else Extend(GroupRuns(xs[..|xs| - 1], key), xs[|xs| - 1], key(xs[|xs| - 1]))
  }

  function Flatten<T>(groups: seq<Group<T>>): seq<T> {
    if groups == [] then [] else Flatten(groups[..|groups| - 1]) + groups[|groups| - 1].rows
  }

  /** Each group is a non-empty run of rows with its key. */
  predicate Uniform<T>(groups: seq<Group<T>>, key: T -> int) {
    forall g :: 0 <= g < |groups| ==>
      groups[g].rows != [] && forall i :: 0 <= i < |groups[g].rows| ==> key(groups[g].rows[i]) == groups[g].key
  }

  predicate IncreasingKeys<T>(groups: seq<Group<T>>) {
    forall g, h :: 0 <= g < h < |groups| ==> groups[g].key < groups[h].key
  }

  lemma {:induction false} LastGroupKey<T>(xs: seq<T>, key: T -> int)
    requires xs != []
    ensures GroupRuns(xs, key) != [] && GroupRuns(xs, key)[|GroupRuns(xs, key)| - 1].key == key(xs[|xs| - 1])
  {
  }

  lemma {:induction false} FlattenPush<T>(groups: seq<Group<T>>, g: Group<T>)
    ensures Flatten(groups + [g]) == Flatten(groups) + g.rows
  {
    assert (groups + [g])[..|groups|] == groups;
  }

  lemma {:induction false} ExtendFlatten<T>(groups: seq<Group<T>>, x: T, k: int)
    ensures Flatten(Extend(groups, x, k)) == Flatten(groups) + [x]
  {
    var g := |groups| - 1;
    if groups != [] && groups[g].key == k {
      FlattenPush(groups[..g], Group(k, groups[g].rows + [x]));
    } else {
      FlattenPush(groups, Group(k, [x]));
    }
  }

  /** Grouping loses no row, repeats none and keeps their order. */
  lemma {:induction false} GroupRunsFlatten<T>(xs: seq<T>, key: T -> int)
    ensures Flatten(GroupRuns(xs, key)) == xs
  {
    if xs != [] {
      var front, x := xs[..|xs| - 1], xs[|xs| - 1];
      calc {
        Flatten(GroupRuns(xs, key));
        Flatten(Extend(GroupRuns(front, key), x, key(x)));
        { ExtendFlatten(GroupRuns(front, key), x, key(x)); }
        Flatten(GroupRuns(front, key)) + [x];
        { GroupRunsFlatten(front, key); }
        front + [x];
        xs;
      }
    }
  }

  lemma {:induction false} GroupRunsUniform<T>(xs: seq<T>, key: T -> int)
    ensures Uniform(GroupRuns(xs, key), key)
  {
    if xs != [] {
      GroupRunsUniform(xs[..|xs| - 1], key);
    }
  }

  lemma {:induction false} ExtendIncreases<T>(groups: seq<Group<T>>, x: T, k: int)
    requires IncreasingKeys(groups)
    requires groups != [] ==> groups[|groups| - 1].key <= k
    ensures IncreasingKeys(Extend(groups, x, k))
  {
  }

  /** On sorted rows no key gets a second group. */
  lemma {:induction false} GroupRunsIncrease<T>(xs: seq<T>, key: T -> int)
    requires Sorted(xs, key)
    ensures IncreasingKeys(GroupRuns(xs, key))
  {
    if xs != [] {
      var front, x := xs[..|xs| - 1], xs[|xs| - 1];
      GroupRunsIncrease(front, key);
      if front != [] {
        LastGroupKey(front, key);
        assert key(front[|front| - 1]) <= key(x);
      }
      ExtendIncreases(GroupRuns(front, key), x, key(x));
      assert GroupRuns(xs, key) == Extend(GroupRuns(front, key), x, key(x));
    }
  }

  lemma {:induction false} FlattenCons<T>(groups: seq<Group<T>>)
    requires groups != []
    ensures Flatten(groups) == groups[0].rows + Flatten(groups[1..])
  {
    var n := |groups| - 1;
    if n == 0 {
      assert groups[..0] == [];
      assert groups[1..] == [];
    } else {
      var front, tail, last := groups[..n], groups[1..], groups[n];
      calc {
        Flatten(groups);
        Flatten(front) + last.rows;
        { FlattenCons(front); }
        groups[0].rows + Flatten(front[1..]) + last.rows;
        groups[0].rows + (Flatten(front[1..]) + last.rows);
        { FlattenPush(front[1..], last); assert front[1..] + [last] == tail; }
        groups[0].rows + Flatten(tail);
      }
    }
  }
}
