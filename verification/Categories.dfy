/** The category tree: the descendant worklist of the edit form and the parent check of the model. */
module Categories {
  import opened Wrappers

  /** Each category's parent; a category is identified by its position. */
  type Parents = seq<Option<nat>>

  predicate Valid(parents: Parents) {
    forall c :: 0 <= c < |parents| && parents[c].Some? ==> parents[c].value < |parents|
  }

  /** The category `k` levels above `c`, if there is one. */
  function Climb(parents: Parents, c: nat, k: nat): (r: Option<nat>)
    requires Valid(parents) && c < |parents|
    ensures r.Some? ==> r.value < |parents|
  {
    if k == 0 then Some(c)
    else
      match Climb(parents, c, k - 1)
      case None => None
      case Some(a) => parents[a]
  }

  lemma {:induction false} ClimbSplits(parents: Parents, c: nat, j: nat, k: nat)
    requires Valid(parents) && c < |parents| && Climb(parents, c, j).Some?
    ensures Climb(parents, c, j + k) == Climb(parents, Climb(parents, c, j).value, k)
  {
    if k > 0 {
      ClimbSplits(parents, c, j, k - 1);
    }
  }

  ghost predicate Ends(parents: Parents, c: nat)
    requires Valid(parents) && c < |parents|
  {
    exists k: nat :: Climb(parents, c, k).None?
  }

  /** Every chain of parents comes to a top-level category. */
  ghost predicate Acyclic(parents: Parents) {
    Valid(parents) && forall c :: 0 <= c < |parents| ==> Ends(parents, c)
  }

  ghost predicate OnCycle(parents: Parents, c: nat)
    requires Valid(parents) && c < |parents|
  {
    exists k: nat :: k > 0 && Climb(parents, c, k) == Some(c)
  }

  lemma {:induction false} CycleRepeats(parents: Parents, c: nat, k: nat, n: nat)
    requires Valid(parents) && c < |parents| && k > 0 && Climb(parents, c, k) == Some(c)
    ensures Climb(parents, c, n).Some?
    decreases n
  {
    if n >= k {
      ClimbSplits(parents, c, k, n - k);
      CycleRepeats(parents, c, k, n - k);
    } else if Climb(parents, c, n).None? {
      ClimbEndsStay(parents, c, n, k);
    }
  }

  lemma {:induction false} ClimbEndsStay(parents: Parents, c: nat, j: nat, k: nat)
    requires Valid(parents) && c < |parents| && j <= k && Climb(parents, c, j).None?
    ensures Climb(parents, c, k).None?
  {
    if j < k {
      ClimbEndsStay(parents, c, j, k - 1);
    }
  }

  lemma {:induction false} AcyclicHasNoCycle(parents: Parents, c: nat)
    requires Acyclic(parents) && c < |parents|
    ensures !OnCycle(parents, c)
  {
    assert Ends(parents, c);
    if OnCycle(parents, c) {
      var k: nat :| k > 0 && Climb(parents, c, k) == Some(c);
      var n: nat :| Climb(parents, c, n).None?;
      CycleRepeats(parents, c, k, n);
    }
  }

  /** `d` lies strictly below `root`. */
  ghost predicate Below(parents: Parents, d: nat, root: nat)
    requires Valid(parents)
  {
    d < |parents| && exists k: nat :: k > 0 && Climb(parents, d, k) == Some(root)
  }

  // ----- The worklist -----

  function ChildrenFrom(parents: Parents, root: nat, from: nat): (r: seq<nat>)
    ensures forall i :: 0 <= i < |r| ==> from <= r[i] < |parents| && parents[r[i]] == Some(root)
    ensures forall c :: from <= c < |parents| && parents[c] == Some(root) ==> c in r
    ensures forall i, j :: 0 <= i < j < |r| ==> r[i] != r[j]
    decreases |parents| - from
  {
    if from >= |parents| then []
    else (if parents[from] == Some(root) then [from] else []) + ChildrenFrom(parents, root, from + 1)
  }

  function Children(parents: Parents, root: nat): seq<nat> {
    ChildrenFrom(parents, root, 0)
  }

  /** One turn of the loop: the last category out, its children in. */
  function Turn(parents: Parents, stack: seq<nat>): seq<nat>
    requires stack != []
  {
    stack[..|stack| - 1] + Children(parents, stack[|stack| - 1])
  }

  lemma {:induction false} ChildBelow(parents: Parents, child: nat, c: nat, root: nat)
    requires Valid(parents) && child < |parents| && parents[child] == Some(c)
    requires c == root || Below(parents, c, root)
    ensures Below(parents, child, root)
  {
    assert Climb(parents, child, 0) == Some(child) && Climb(parents, child, 1) == Some(c);
    if Below(parents, c, root) {
      var k: nat :| k > 0 && Climb(parents, c, k) == Some(root);
      ClimbSplits(parents, child, 1, k);
    }
  }

  /** Everything below `root` is found once the set is closed under children. */
  lemma {:induction false} ClosedHoldsAll(parents: Parents, root: nat, found: set<nat>, d: nat, k: nat)
    requires Valid(parents) && d < |parents| && k > 0 && Climb(parents, d, k) == Some(root)
    requires forall c :: 0 <= c < |parents| && (parents[c] == Some(root) || (parents[c].Some? && parents[c].value in found)) ==> c in found
    ensures d in found
    decreases k
  {
    assert Climb(parents, d, 0) == Some(d);
    if k > 1 {
      if Climb(parents, d, 1).None? {
        ClimbEndsStay(parents, d, 1, k);
      } else {
        ClimbSplits(parents, d, 1, k - 1);
        ClosedHoldsAll(parents, root, found, parents[d].value, k - 1);
      }
    }
  }

  predicate Fresh(stack: seq<nat>, found: set<nat>) {
    && (forall i, j :: 0 <= i < j < |stack| ==> stack[i] != stack[j])
    && forall i :: 0 <= i < |stack| ==> stack[i] !in found
  }

  /** What the loop knows: each waiting or found category hangs below the root, and its parent is done. */
  ghost predicate Progress(parents: Parents, root: nat, stack: seq<nat>, found: set<nat>)
    requires Valid(parents)
  {
    && Fresh(stack, found)
    && (forall d: nat :: d in found || d in stack ==> Reached(parents, root, found, d))
    && (forall c :: 0 <= c < |parents| && (parents[c] == Some(root) || (parents[c].Some? && parents[c].value in found))
          ==> c in found || c in stack)
  }

  ghost predicate Reached(parents: Parents, root: nat, found: set<nat>, d: nat)
    requires Valid(parents)
  {
    && Below(parents, d, root)
    && parents[d].Some? && (parents[d].value == root || parents[d].value in found)
  }

  lemma {:induction false} PopProgress(parents: Parents, root: nat, stack: seq<nat>, found: set<nat>)
    requires Valid(parents) && root < |parents| && !OnCycle(parents, root)
    requires stack != [] && Progress(parents, root, stack, found)
    ensures Progress(parents, root, Turn(parents, stack), found + {stack[|stack| - 1]})
  {
    var n := |stack| - 1;
    var front, c := stack[..n], stack[n];
    var kids, found' := Children(parents, c), found + {c};
    assert stack == front + [c];
    assert Reached(parents, root, found, c);
    var stack' := front + kids;
    assert forall d: nat :: d in found || d in stack ==> parents[d] != Some(c);
    forall d: nat | d in found' || d in stack' ensures Reached(parents, root, found', d) {
      if d in kids {
        ChildBelow(parents, d, c, root);
      } else {
        assert d in found || d in stack;
      }
    }
  }

  lemma {:induction false} SmallSet(found: set<nat>, n: nat)
    requires forall d :: d in found ==> d < n
    ensures |found| <= n
  {
    if n == 0 {
      assert found == {};
    } else if n - 1 in found {
      SmallSet(found - {n - 1}, n - 1);
    } else {
      SmallSet(found, n - 1);
    }
  }

  /** The form's worklist: it ends, with exactly the proper descendants. */
  method Descendants(parents: Parents, root: nat) returns (found: set<nat>)
    requires Valid(parents) && root < |parents| && !OnCycle(parents, root)
    ensures forall d: nat :: d in found <==> Below(parents, d, root)
  {
    found := {};
    var stack := Children(parents, root);
    forall d: nat | d in stack ensures Reached(parents, root, found, d) {
      ChildBelow(parents, d, root, root);
    }
    while stack != []
      invariant Progress(parents, root, stack, found)
      invariant |found| <= |parents|
      decreases |parents| - |found|
    {
      var n := |stack| - 1;
      var child := stack[n];
      PopProgress(parents, root, stack, found);
      found := found + {child};
      assert forall d: nat :: d in found ==> Reached(parents, root, found, d);
      SmallSet(found, |parents|);
      stack := Turn(parents, stack);
    }
    forall d: nat | Below(parents, d, root) ensures d in found {
      var k: nat :| k > 0 && Climb(parents, d, k) == Some(root);
      ClosedHoldsAll(parents, root, found, d, k);
    }
  }
}
