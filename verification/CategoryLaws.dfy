/** The parent check keeps the category tree free of cycles, and the form hides exactly the cyclic choices. */
module CategoryLaws {
  import opened Wrappers
  import opened Categories

  // ----- When the worklist ends -----

  /** The worklist after `k` turns of the loop. */
  function StackAfter(parents: Parents, stack: seq<nat>, k: nat): seq<nat>
    decreases k
  {
    if k == 0 || stack == [] then stack
    else
      StackAfter(parents, Turn(parents, stack), k - 1)
  }

  ghost predicate Drains(parents: Parents, stack: seq<nat>) {
    exists k: nat :: StackAfter(parents, stack, k) == []
  }

  /** Something waits on the stack, so not everything has been found. */
  lemma {:induction false} FoundFewer(parents: Parents, root: nat, stack: seq<nat>, found: set<nat>)
    requires Valid(parents) && stack != [] && Progress(parents, root, stack, found)
    ensures |found| < |parents|
  {
    var c := stack[|stack| - 1];
    assert forall d: nat :: d in found + {c} ==> d in found || d in stack;
    SmallSet(found + {c}, |parents|);
    assert c !in found;
  }

  lemma {:induction false} FreshStackDrains(parents: Parents, root: nat, stack: seq<nat>, found: set<nat>)
    requires Valid(parents) && root < |parents| && !OnCycle(parents, root) && Progress(parents, root, stack, found)
    ensures Drains(parents, stack)
    decreases |parents| - |found|
  {
    if stack == [] {
      assert StackAfter(parents, stack, 0) == [];
    } else {
      var c := stack[|stack| - 1];
      assert c !in found;
      FoundFewer(parents, root, stack, found);
      PopProgress(parents, root, stack, found);
      FreshStackDrains(parents, root, Turn(parents, stack), found + {c});
      DrainsOneEarlier(parents, stack);
    }
  }

  lemma {:induction false} DrainsOneEarlier(parents: Parents, stack: seq<nat>)
    requires stack != [] && Drains(parents, Turn(parents, stack))
    ensures Drains(parents, stack)
  {
    var k: nat :| StackAfter(parents, Turn(parents, stack), k) == [];
    assert StackAfter(parents, stack, k + 1) == [];
  }

  /** The child through which a category on a cycle reaches itself is on that cycle too. */
  lemma {:induction false} CycleChild(parents: Parents, c: nat) returns (child: nat)
    requires Valid(parents) && c < |parents| && OnCycle(parents, c)
    ensures child in Children(parents, c) && OnCycle(parents, child)
  {
    var k: nat :| k > 0 && Climb(parents, c, k) == Some(c);
    child := Climb(parents, c, k - 1).value;
    assert parents[child] == Some(c);
    assert Climb(parents, child, 0) == Some(child) && Climb(parents, child, 1) == Some(c);
    ClimbSplits(parents, child, 1, k - 1);
    assert Climb(parents, child, k) == Some(child);
  }

  ghost predicate HoldsCyclic(parents: Parents, stack: seq<nat>)
    requires Valid(parents)
  {
    exists c: nat :: c in stack && c < |parents| && OnCycle(parents, c)
  }

  lemma {:induction false} TurnKeepsCyclic(parents: Parents, stack: seq<nat>)
    requires Valid(parents) && stack != [] && HoldsCyclic(parents, stack)
    ensures HoldsCyclic(parents, Turn(parents, stack))
  {
    var n := |stack| - 1;
    var c: nat :| c in stack && c < |parents| && OnCycle(parents, c);
    if stack[n] == c {
      var child := CycleChild(parents, c);
      assert child in Turn(parents, stack);
    } else {
      assert stack == stack[..n] + [stack[n]];
      assert c in Turn(parents, stack);
    }
  }

  lemma {:induction false} CycleNeverDrains(parents: Parents, stack: seq<nat>, k: nat)
    requires Valid(parents) && HoldsCyclic(parents, stack)
    ensures StackAfter(parents, stack, k) != []
    decreases k
  {
    if k > 0 {
      TurnKeepsCyclic(parents, stack);
      CycleNeverDrains(parents, Turn(parents, stack), k - 1);
    }
  }

  /** The form's loop ends if and only if the edited category is not on a cycle already. */
  lemma {:induction false} WorklistEndsIff(parents: Parents, root: nat)
    requires Valid(parents) && root < |parents|
    ensures Drains(parents, Children(parents, root)) <==> !OnCycle(parents, root)
  {
    var start := Children(parents, root);
    if OnCycle(parents, root) {
      var child := CycleChild(parents, root);
      forall k: nat ensures StackAfter(parents, start, k) != [] {
        CycleNeverDrains(parents, start, k);
      }
    } else {
      forall d: nat | d in start ensures Reached(parents, root, {}, d) {
        ChildBelow(parents, d, root, root);
      }
      FreshStackDrains(parents, root, start, {});
    }
  }

  // ----- The parent check -----

  datatype Refusal = SelfParent | Cycle | TooDeep

  function CleanFrom(parents: Parents, ancestor: Option<nat>, seen: set<nat>, depth: nat): Option<Refusal>
    requires Valid(parents) && depth <= 3 && (ancestor.Some? ==> ancestor.value < |parents|)
    decreases 4 - depth
  {
    if ancestor.None? then None
    else if ancestor.value in seen then Some(Cycle)
    else if depth + 1 > 3 then Some(TooDeep)
    else CleanFrom(parents, parents[ancestor.value], seen + {ancestor.value}, depth + 1)
  }

  function Self(pk: Option<nat>): set<nat> {
    if pk.Some? then {pk.value} else {}
  }

  /** `clean` of category `pk` (absent while it is new) with the parent it is about to get. */
  function Clean(parents: Parents, pk: Option<nat>, parent: Option<nat>): Option<Refusal>
    requires Valid(parents) && (parent.Some? ==> parent.value < |parents|)
  {
    if parent.None? then None
    else if pk == parent then Some(SelfParent)
    else CleanFrom(parents, parent, Self(pk), 1)
  }

  method CleanCategory(parents: Parents, pk: Option<nat>, parent: Option<nat>) returns (refusal: Option<Refusal>)
    requires Valid(parents) && (parent.Some? ==> parent.value < |parents|)
    ensures refusal == Clean(parents, pk, parent)
  {
    if parent.None? { return None; }
    if pk == parent { return Some(SelfParent); }
    var ancestor: Option<nat>, depth: nat, seen: set<nat> := parent, 1, Self(pk);
    while ancestor.Some?
      invariant depth <= 3 && (ancestor.Some? ==> ancestor.value < |parents|)
      invariant CleanFrom(parents, ancestor, seen, depth) == Clean(parents, pk, parent)
      decreases 4 - depth
    {
      if ancestor.value in seen { return Some(Cycle); }
      seen := seen + {ancestor.value};
      depth := depth + 1;
      if depth > 3 { return Some(TooDeep); }
      ancestor := parents[ancestor.value];
    }
    return None;
  }

  lemma {:induction false} NoSelfParent(parents: Parents, c: nat)
    requires Acyclic(parents) && c < |parents|
    ensures parents[c] != Some(c)
  {
    AcyclicHasNoCycle(parents, c);
    assert Climb(parents, c, 0) == Some(c);
    assert Climb(parents, c, 1) == parents[c];
  }

  /**
   * On an acyclic table the check accepts a parent exactly when that parent has at most one ancestor
   * and neither of the two is the category itself.
   */
  lemma {:induction false} CleanAcceptsIff(parents: Parents, pk: Option<nat>, p: nat)
    requires Acyclic(parents) && p < |parents|
    ensures Clean(parents, pk, Some(p)).None? <==>
      pk != Some(p)
      && (parents[p].Some? ==> pk != parents[p] && parents[parents[p].value].None?)
  {
    NoSelfParent(parents, p);
    var first := CleanFrom(parents, Some(p), Self(pk), 1);
    if pk != Some(p) && parents[p].Some? {
      var g := parents[p].value;
      assert first == CleanFrom(parents, Some(g), Self(pk) + {p}, 2);
      if pk != Some(g) {
        assert first == CleanFrom(parents, parents[g], Self(pk) + {p} + {g}, 3);
      }
    }
  }

  /** Category `pk` moved under `parent`, or a new category added there. */
  function Reparented(parents: Parents, pk: Option<nat>, parent: Option<nat>): Parents
    requires pk.Some? ==> pk.value < |parents|
  {
    if pk.Some? then parents[pk.value := parent] else parents + [parent]
  }

  /** The chain of `d` comes to `c` in fewer than `k` steps. */
  ghost predicate Meets(parents: Parents, d: nat, c: nat, k: nat)
    requires Valid(parents) && d < |parents|
  {
    exists j: nat :: j < k && Climb(parents, d, j) == Some(c)
  }

  /** Moving `c` leaves every chain alone up to where it meets `c`. */
  lemma {:induction false} ChainUntil(parents: Parents, c: nat, parent: Option<nat>, d: nat, k: nat)
    requires Valid(parents) && c < |parents| && d < |parents| && Valid(parents[c := parent])
    ensures Climb(parents[c := parent], d, k) == Climb(parents, d, k)
      || Meets(parents[c := parent], d, c, k)
  {
    if k > 0 {
      ChainUntil(parents, c, parent, d, k - 1);
    }
  }

  lemma {:induction false} ChainClear(parents: Parents, c: nat, parent: Option<nat>, d: nat, k: nat)
    requires Valid(parents) && c < |parents| && d < |parents| && Valid(parents[c := parent])
    requires d != c && !Below(parents, d, c)
    ensures Climb(parents[c := parent], d, k) == Climb(parents, d, k)
  {
    if k > 0 {
      ChainClear(parents, c, parent, d, k - 1);
      assert Climb(parents, d, k - 1) != Some(c);
    }
  }

  lemma {:induction false} EndsFrom(parents: Parents, d: nat, j: nat, c: nat)
    requires Valid(parents) && d < |parents| && Climb(parents, d, j) == Some(c) && Ends(parents, c)
    ensures Ends(parents, d)
  {
    var k: nat :| Climb(parents, c, k).None?;
    ClimbSplits(parents, d, j, k);
  }

  /** The moved category's own chain still ends, unless its new parent is itself or below it. */
  lemma {:induction false} MovedEnds(parents: Parents, c: nat, parent: Option<nat>)
    requires Acyclic(parents) && c < |parents| && (parent.Some? ==> parent.value < |parents|)
    requires parent.Some? ==> parent.value != c && !Below(parents, parent.value, c)
    ensures Valid(parents[c := parent]) && Ends(parents[c := parent], c)
  {
    var after := parents[c := parent];
    assert Climb(after, c, 0) == Some(c);
    assert Climb(after, c, 1) == parent;
    if parent.Some? {
      var p := parent.value;
      assert Ends(parents, p);
      var k: nat :| Climb(parents, p, k).None?;
      ChainClear(parents, c, parent, p, k);
      assert Ends(after, p);
      EndsFrom(after, c, 1, p);
    }
  }

  lemma {:induction false} MoveKeepsAcyclic(parents: Parents, c: nat, parent: Option<nat>)
    requires Acyclic(parents) && c < |parents| && (parent.Some? ==> parent.value < |parents|)
    requires parent.Some? ==> parent.value != c && !Below(parents, parent.value, c)
    ensures Acyclic(parents[c := parent])
  {
    var after := parents[c := parent];
    MovedEnds(parents, c, parent);
    forall d | 0 <= d < |after| ensures Ends(after, d) {
      assert Ends(parents, d);
      var k: nat :| Climb(parents, d, k).None?;
      ChainUntil(parents, c, parent, d, k);
      if Climb(after, d, k).Some? {
        var j: nat :| j < k && Climb(after, d, j) == Some(c);
        EndsFrom(after, d, j, c);
      }
    }
  }

  lemma {:induction false} ChainInLonger(parents: Parents, more: Option<nat>, d: nat, k: nat)
    requires Valid(parents) && Valid(parents + [more]) && d < |parents|
    ensures Climb(parents + [more], d, k) == Climb(parents, d, k)
  {
    if k > 0 {
      ChainInLonger(parents, more, d, k - 1);
    }
  }

  lemma {:induction false} NewKeepsAcyclic(parents: Parents, parent: Option<nat>)
    requires Acyclic(parents) && (parent.Some? ==> parent.value < |parents|)
    ensures Acyclic(parents + [parent])
  {
    var after := parents + [parent];
    forall d | 0 <= d < |parents| ensures Ends(after, d) {
      assert Ends(parents, d);
      var k: nat :| Climb(parents, d, k).None?;
      ChainInLonger(parents, parent, d, k);
    }
    var c := |parents|;
    assert Climb(after, c, 0) == Some(c);
    assert Climb(after, c, 1) == parent;
    if parent.Some? {
      EndsFrom(after, c, 1, parent.value);
    }
  }

  lemma {:induction false} ClosesCycle(parents: Parents, c: nat, p: nat)
    requires Valid(parents) && c < |parents| && p < |parents| && (p == c || Below(parents, p, c))
    ensures OnCycle(parents[c := Some(p)], c)
  {
    var after := parents[c := Some(p)];
    assert Climb(after, c, 0) == Some(c);
    assert Climb(after, c, 1) == Some(p);
    if p != c {
      var k: nat :| k > 0 && Climb(parents, p, k) == Some(c);
      ChainUntil(parents, c, Some(p), p, k);
      var j: nat :| Climb(after, p, j) == Some(c);
      ClimbSplits(after, c, 1, j);
    }
  }

  // ----- Main results -----

  /** Every change the check accepts keeps the table acyclic, for new and existing categories. */
  lemma {:induction false} AcceptedKeepsAcyclic(parents: Parents, pk: Option<nat>, parent: Option<nat>)
    requires Acyclic(parents) && (parent.Some? ==> parent.value < |parents|) && (pk.Some? ==> pk.value < |parents|)
    requires Clean(parents, pk, parent).None?
    ensures Acyclic(Reparented(parents, pk, parent))
  {
    if pk.None? {
      NewKeepsAcyclic(parents, parent);
    } else {
      if parent.Some? {
        CleanAcceptsIff(parents, pk, parent.value);
        ShortChainNotBelow(parents, parent.value, pk.value);
      }
      MoveKeepsAcyclic(parents, pk.value, parent);
    }
  }

  lemma {:induction false} ShortChainNotBelow(parents: Parents, p: nat, c: nat)
    requires Valid(parents) && p < |parents|
    requires parents[p].Some? ==> parents[p].value != c && parents[parents[p].value].None?
    ensures !Below(parents, p, c)
  {
    assert Climb(parents, p, 0) == Some(p);
    assert Climb(parents, p, 1) == parents[p];
    assert Climb(parents, p, 2).None?;
    forall k: nat | k > 0 ensures Climb(parents, p, k) != Some(c) {
      if k >= 2 {
        ClimbEndsStay(parents, p, 2, k);
      }
    }
  }

  /** The choices the edit form leaves: active, not the category itself and none of its descendants. */
  ghost predicate Offered(parents: Parents, active: set<nat>, c: nat, p: nat)
    requires Valid(parents)
  {
    p < |parents| && p in active && p != c && !Below(parents, p, c)
  }

  /** Among the active categories the form hides exactly those that would close a cycle. */
  lemma {:induction false} FormHidesExactlyCycles(parents: Parents, active: set<nat>, c: nat, p: nat)
    requires Acyclic(parents) && c < |parents| && p < |parents| && p in active
    ensures Offered(parents, active, c, p) <==> Acyclic(parents[c := Some(p)])
  {
    if Offered(parents, active, c, p) {
      MoveKeepsAcyclic(parents, c, Some(p));
    } else {
      ClosesCycle(parents, c, p);
      if Acyclic(parents[c := Some(p)]) {
        AcyclicHasNoCycle(parents[c := Some(p)], c);
      }
    }
  }

  /** An offered parent is never refused as a cycle; it can only be too deep. */
  lemma {:induction false} OfferedNeverACycle(parents: Parents, active: set<nat>, c: nat, p: nat)
    requires Acyclic(parents) && c < |parents| && Offered(parents, active, c, p)
    ensures Clean(parents, Some(c), Some(p)).Some? ==> Clean(parents, Some(c), Some(p)).value == TooDeep
  {
    NoSelfParent(parents, p);
    assert Climb(parents, p, 0) == Some(p);
    assert Climb(parents, p, 1) == parents[p];
    if parents[p].Some? {
      var g := parents[p].value;
      NoSelfParent(parents, g);
      assert g != c;
      assert Climb(parents, p, 2) == parents[g];
      AcyclicHasNoCycle(parents, p);
      assert parents[g] != Some(p) && parents[g] != Some(c);
      var start := CleanFrom(parents, Some(p), {c}, 1);
      assert start == CleanFrom(parents, Some(g), {c} + {p}, 2);
      assert start == CleanFrom(parents, parents[g], {c} + {p} + {g}, 3);
    }
  }

  datatype Change = Change(pk: Option<nat>, parent: Option<nat>)

  predicate Applies(parents: Parents, change: Change) {
    (change.parent.Some? ==> change.parent.value < |parents|) && (change.pk.Some? ==> change.pk.value < |parents|)
  }

  /** A refused change is not saved. */
  function Next(parents: Parents, change: Change): Parents
    requires Valid(parents) && Applies(parents, change)
  {
    if Clean(parents, change.pk, change.parent).None? then Reparented(parents, change.pk, change.parent) else parents
  }

  ghost predicate IsRun(states: seq<Parents>, changes: seq<Change>) {
    && |states| == |changes| + 1
    && forall i :: 0 <= i < |changes| ==>
      Valid(states[i]) && Applies(states[i], changes[i]) && states[i + 1] == Next(states[i], changes[i])
  }

  /** From an empty table, no sequence of validated saves ever builds a cycle. */
  lemma {:induction false} RunStaysAcyclic(states: seq<Parents>, changes: seq<Change>, k: nat)
    requires IsRun(states, changes) && Acyclic(states[0]) && k < |states|
    ensures Acyclic(states[k])
  {
    if k > 0 {
      RunStaysAcyclic(states, changes, k - 1);
      var before, change := states[k - 1], changes[k - 1];
      assert states[k] == Next(before, change);
      if Clean(before, change.pk, change.parent).None? {
        AcceptedKeepsAcyclic(before, change.pk, change.parent);
      }
    }
  }

  // ----- Three levels -----

  /** No category has three others above it. */
  predicate ThreeLevels(parents: Parents)
    requires Valid(parents)
  {
    forall d :: 0 <= d < |parents| ==> Climb(parents, d, 3).None?
  }

  predicate HasChild(parents: Parents, c: nat) {
    exists d :: 0 <= d < |parents| && parents[d] == Some(c)
  }

  predicate HasGrandchild(parents: Parents, c: nat) {
    exists x: nat :: x < |parents| && parents[x] == Some(c) && HasChild(parents, x)
  }

  /** What the moved category may have below it: nothing under a child, only children under a root. */
  predicate FitsBelow(parents: Parents, c: nat, p: nat)
    requires p < |parents|
  {
    if parents[p].Some? then !HasChild(parents, c) else !HasGrandchild(parents, c)
  }

  lemma {:induction false} ThreeUp(parents: Parents, d: nat)
    requires Valid(parents) && d < |parents|
    ensures Climb(parents, d, 1) == parents[d]
    ensures parents[d].Some? ==> Climb(parents, d, 2) == parents[parents[d].value]
    ensures parents[d].Some? && parents[parents[d].value].Some? ==>
      Climb(parents, d, 3) == parents[parents[parents[d].value].value]
    ensures parents[d].None? || parents[parents[d].value].None? ==> Climb(parents, d, 3).None?
  {
    assert Climb(parents, d, 0) == Some(d);
    assert Climb(parents, d, 3) == match Climb(parents, d, 2) case None => None case Some(a) => parents[a];
  }

  /** A category that is not moved grows too deep only through the moved one, right above it or one further up. */
  lemma {:induction false} MovedChain(parents: Parents, c: nat, p: nat, d: nat)
    requires Acyclic(parents) && ThreeLevels(parents) && c < |parents| && p < |parents| && d < |parents| && d != c
    requires Clean(parents, Some(c), Some(p)).None?
    ensures Climb(parents[c := Some(p)], d, 3).Some? <==>
      || (parents[d] == Some(c) && parents[p].Some?)
      || (parents[d].Some? && parents[d].value != c && parents[parents[d].value] == Some(c))
  {
    CleanAcceptsIff(parents, Some(c), p);
    ThreeUp(parents, d);
    ThreeUp(parents[c := Some(p)], d);
    NoSelfParent(parents, d);
  }

  lemma {:induction false} MovedItself(parents: Parents, c: nat, p: nat)
    requires Acyclic(parents) && c < |parents| && p < |parents| && Clean(parents, Some(c), Some(p)).None?
    ensures Climb(parents[c := Some(p)], c, 3).None?
  {
    CleanAcceptsIff(parents, Some(c), p);
    ThreeUp(parents[c := Some(p)], c);
  }

  lemma {:induction false} MoveKeepsLevelsIff(parents: Parents, c: nat, p: nat)
    requires Acyclic(parents) && ThreeLevels(parents) && c < |parents| && p < |parents|
    requires Clean(parents, Some(c), Some(p)).None?
    ensures ThreeLevels(parents[c := Some(p)]) <==> FitsBelow(parents, c, p)
  {
    var after := parents[c := Some(p)];
    MovedItself(parents, c, p);
    if FitsBelow(parents, c, p) {
      forall d | 0 <= d < |parents| ensures Climb(after, d, 3).None? {
        if d != c {
          MovedChain(parents, c, p, d);
          if parents[d].Some? && parents[d].value != c && parents[parents[d].value] == Some(c) {
            assert HasChild(parents, parents[d].value);
          }
        }
      }
    } else if parents[p].Some? {
      var d :| 0 <= d < |parents| && parents[d] == Some(c);
      NoSelfParent(parents, c);
      MovedChain(parents, c, p, d);
    } else {
      var x: nat :| x < |parents| && parents[x] == Some(c) && HasChild(parents, x);
      var d :| 0 <= d < |parents| && parents[d] == Some(x);
      NoSelfParent(parents, c);
      NotParentOfParent(parents, d);
      MovedChain(parents, c, p, d);
    }
  }

  lemma {:induction false} NotParentOfParent(parents: Parents, d: nat)
    requires Acyclic(parents) && d < |parents| && parents[d].Some?
    ensures parents[parents[d].value] != Some(d)
  {
    AcyclicHasNoCycle(parents, d);
    ThreeUp(parents, d);
  }

  /** An accepted change that is not a move below another category cannot make the tree deeper than the check allows. */
  lemma {:induction false} OtherChangesKeepLevels(parents: Parents, pk: Option<nat>, parent: Option<nat>)
    requires Acyclic(parents) && ThreeLevels(parents) && (pk.Some? ==> pk.value < |parents| && parent.None?)
    requires (parent.Some? ==> parent.value < |parents|) && Clean(parents, pk, parent).None?
    ensures Valid(Reparented(parents, pk, parent)) && ThreeLevels(Reparented(parents, pk, parent))
  {
    var after := Reparented(parents, pk, parent);
    forall d | 0 <= d < |after| ensures Climb(after, d, 3).None? {
      ThreeUp(after, d);
      if d < |parents| {
        ThreeUp(parents, d);
      } else if parent.Some? {
        CleanAcceptsIff(parents, pk, parent.value);
      }
    }
  }

  /**
   * The check only looks upwards, so it does not bound the tree. From a table of at most three levels
   * an accepted change keeps that bound if and only if it does not move a category below another one,
   * or what hangs below the moved category fits there: nothing under a child, no grandchild under a root.
   */
  lemma {:induction false} AcceptedKeepsLevelsIff(parents: Parents, pk: Option<nat>, parent: Option<nat>)
    requires Acyclic(parents) && ThreeLevels(parents)
    requires (parent.Some? ==> parent.value < |parents|) && (pk.Some? ==> pk.value < |parents|)
    requires Clean(parents, pk, parent).None?
    ensures Valid(Reparented(parents, pk, parent))
    ensures ThreeLevels(Reparented(parents, pk, parent)) <==>
      (pk.Some? && parent.Some? ==> FitsBelow(parents, pk.value, parent.value))
  {
    if pk.Some? && parent.Some? {
      MoveKeepsLevelsIff(parents, pk.value, parent.value);
    } else {
      OtherChangesKeepLevels(parents, pk, parent);
    }
  }

  /** The bound does get lost: a root with two levels below it moves under another root. */
  lemma {:induction false} DepthNotBounded()
    ensures var parents := [None, Some(0), Some(1), None];
      && Clean(parents, Some(0), Some(3)).None?
      && Climb(Reparented(parents, Some(0), Some(3)), 2, 3) == Some(3)
  {
    var after := [Some(3), Some(0), Some(1), None];
    assert Reparented([None, Some(0), Some(1), None], Some(0), Some(3)) == after;
    ThreeUp(after, 2);
  }
}
