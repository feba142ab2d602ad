/**
  What the status numbers of a buddy tree mean.

  `Status(n, marked, x)` is the number stored at node `x` of a tree of order `n` in which
  exactly the nodes of `marked` were allocated.  It is shown to be the distance from `x`
  to the nearest level at which a free node can be found below `x`.
 */
module StatusSpec {
  import opened TreeShape

  /** The status of a parent from the statuses of its children. */
  function Combine(l: nat, r: nat): nat
  {
    if l == 0 && r == 0 then 0 else (if l <= r then l else r) + 1
  }

  function Status(n: nat, marked: set<nat>, x: nat): (s: nat)
    requires InTree(n, x)
    ensures s <= Width(n, x)
    decreases n - Depth(x)
  {
    if x in marked then Width(n, x)
    else if Depth(x) == n then 0
    else
      Children(x);
      Combine(Status(n, marked, 2 * x), Status(n, marked, 2 * x + 1))
  }

  /** No node of `marked` is `x` or below it. */
  ghost predicate Clear(marked: set<nat>, x: nat)
  {
    forall m :: m in marked ==> m >= 1 && !IsAnc(x, m)
  }

  /** Neither `x`, nor anything above or below it, is marked. */
  ghost predicate Free(marked: set<nat>, x: nat)
    requires x >= 1
  {
    Clear(marked, x) && forall m :: m in marked ==> !IsAnc(m, x)
  }

  /** A set of allocated nodes: all in the tree, none above another. */
  ghost predicate Legal(n: nat, marked: set<nat>)
  {
    && (forall m :: m in marked ==> InTree(n, m))
    && (forall a, b :: a in marked && b in marked && IsAnc(a, b) ==> a == b)
  }

  lemma LegalAdd(n: nat, marked: set<nat>, p: nat)
    requires Legal(n, marked) && InTree(n, p) && Free(marked, p)
    ensures Legal(n, marked + {p})
  {
  }

  lemma LegalRemove(n: nat, marked: set<nat>, p: nat)
    requires Legal(n, marked)
    ensures Legal(n, marked - {p})
  {
  }

  /** Sets that agree below `x` give `x` the same status. */
  lemma {:induction false} StatusFrame(n: nat, a: set<nat>, b: set<nat>, x: nat)
    requires InTree(n, x)
    requires forall m: nat :: m >= 1 && IsAnc(x, m) ==> (m in a <==> m in b)
    ensures Status(n, a, x) == Status(n, b, x)
    decreases n - Depth(x)
  {
    assert IsAnc(x, x);
    if Depth(x) < n {
      Children(x);
      forall m: nat | m >= 1 ensures IsAnc(2 * x, m) || IsAnc(2 * x + 1, m) ==> IsAnc(x, m) { ChildAnc(x, m); }
      StatusFrame(n, a, b, 2 * x);
      StatusFrame(n, a, b, 2 * x + 1);
    }
  }

  /** A status of zero means that nothing at or below the node is marked. */
  lemma {:induction false} ZeroIsClear(n: nat, marked: set<nat>, x: nat)
    requires Legal(n, marked) && InTree(n, x)
    ensures Status(n, marked, x) == 0 <==> Clear(marked, x)
    decreases n - Depth(x)
  {
    if x in marked {
      assert IsAnc(x, x);
    } else if Depth(x) == n {
      forall m | m in marked ensures !IsAnc(x, m) { if IsAnc(x, m) { AncDepth(x, m); } }
    } else {
      Children(x);
      ZeroIsClear(n, marked, 2 * x);
      ZeroIsClear(n, marked, 2 * x + 1);
      forall m | m in marked ensures IsAnc(x, m) <==> IsAnc(2 * x, m) || IsAnc(2 * x + 1, m) {
        ChildAnc(x, m);
        if IsAnc(x, m) { AncChild(x, m); }
      }
    }
  }

  /** `y` lies `k` levels below `x`, the path from `x` down to `y` is unmarked and nothing below `y` is marked. */
  ghost predicate FreeBelow(marked: set<nat>, x: nat, k: nat, y: nat)
    requires x >= 1
  {
    && y >= 1 && IsAnc(x, y) && Depth(y) == Depth(x) + k && Clear(marked, y)
    && forall m :: m in marked && IsAnc(x, m) ==> !IsAnc(m, y)
  }

  /**
    The meaning of a status: it is at most `k` exactly when a free node lies `k` levels
    below, as seen from this node.
   */
  lemma {:induction false} StatusMeaning(n: nat, marked: set<nat>, x: nat, k: nat)
    requires Legal(n, marked) && InTree(n, x) && Depth(x) + k <= n
    ensures Status(n, marked, x) <= k <==> exists y :: FreeBelow(marked, x, k, y)
    decreases k
  {
    if k == 0 {
      ZeroIsClear(n, marked, x);
      if Clear(marked, x) { assert FreeBelow(marked, x, 0, x); }
      if y :| FreeBelow(marked, x, 0, y) { AncDepth(x, y); }
    } else if x in marked {
      forall y | FreeBelow(marked, x, k, y) ensures false { assert IsAnc(x, x); }
    } else {
      Children(x);
      var l, r, j := 2 * x, 2 * x + 1, k - 1;
      StatusMeaning(n, marked, l, j);
      StatusMeaning(n, marked, r, j);
      if y :| FreeBelow(marked, l, j, y) { FreeUp(n, marked, x, l, k, y); }
      if y :| FreeBelow(marked, r, j, y) { FreeUp(n, marked, x, r, k, y); }
      if y :| FreeBelow(marked, x, k, y) { FreeDown(n, marked, x, k, y); }
    }
  }

  lemma FreeUp(n: nat, marked: set<nat>, x: nat, c: nat, k: nat, y: nat)
    requires Legal(n, marked) && InTree(n, x) && x !in marked && k >= 1
    requires (c == 2 * x || c == 2 * x + 1) && FreeBelow(marked, c, k - 1, y)
    ensures FreeBelow(marked, x, k, y)
  {
    Children(x);
    ChildAnc(x, y);
    forall m | m in marked && IsAnc(x, m) ensures !IsAnc(m, y) {
      if IsAnc(m, y) {
        AncDepth(x, m);
        AncChain(c, m, y);
      }
    }
  }

  lemma FreeDown(n: nat, marked: set<nat>, x: nat, k: nat, y: nat)
    requires Legal(n, marked) && InTree(n, x) && k >= 1 && FreeBelow(marked, x, k, y)
    ensures FreeBelow(marked, 2 * x, k - 1, y) || FreeBelow(marked, 2 * x + 1, k - 1, y)
  {
    Children(x);
    AncChild(x, y);
    var c := if IsAnc(2 * x, y) then 2 * x else 2 * x + 1;
    forall m | m in marked && IsAnc(c, m) ensures IsAnc(x, m) { ChildAnc(x, m); }
    assert FreeBelow(marked, c, k - 1, y);
  }

  /** From the root, "free below" is plain freedom. */
  lemma FreeFromRoot(n: nat, marked: set<nat>, k: nat, y: nat)
    requires Legal(n, marked)
    ensures FreeBelow(marked, 1, k, y) <==> y >= 1 && Depth(y) == k + 1 && Free(marked, y)
  {
    if y >= 1 { RootAnc(y); }
    forall m | m in marked ensures IsAnc(1, m) { RootAnc(m); }
  }

  /**
    A search from the root can succeed exactly when the root's status allows it:
    completeness and soundness of the test at the top of `buddy_tree_find_free`.
   */
  lemma RootStatusMeaning(n: nat, marked: set<nat>, d: nat)
    requires Legal(n, marked) && 1 <= d <= n
    ensures Status(n, marked, 1) <= d - 1 <==> exists y: nat :: y >= 1 && Depth(y) == d && Free(marked, y)
  {
    var k := d - 1;
    StatusMeaning(n, marked, 1, k);
    if y :| FreeBelow(marked, 1, k, y) { FreeFromRoot(n, marked, k, y); }
    if y: nat :| y >= 1 && Depth(y) == d && Free(marked, y) { FreeFromRoot(n, marked, k, y); }
  }

  /** Below a marked node every status is zero. */
  lemma BelowMarked(n: nat, marked: set<nat>, m: nat, x: nat)
    requires Legal(n, marked) && m in marked && InTree(n, x) && IsAnc(m, x) && m != x
    ensures Status(n, marked, x) == 0
  {
    forall k | k in marked ensures !IsAnc(x, k) {
      if IsAnc(x, k) { AncTrans(m, x, k); AncDepth(m, x); AncDepth(x, k); }
    }
    ZeroIsClear(n, marked, x);
  }

  /** The status of a free node is zero and so marking it is legal. */
  lemma FreeIsZero(n: nat, marked: set<nat>, x: nat)
    requires Legal(n, marked) && InTree(n, x) && Free(marked, x)
    ensures Status(n, marked, x) == 0 && Legal(n, marked + {x})
  {
    ZeroIsClear(n, marked, x);
    LegalAdd(n, marked, x);
  }

  /** A full node: allocated itself, or made of two full halves. */
  ghost predicate Covered(n: nat, marked: set<nat>, x: nat)
    requires InTree(n, x)
    decreases n - Depth(x)
  {
    x in marked || (Depth(x) < n && HalvesCovered(n, marked, x))
  }

  ghost predicate HalvesCovered(n: nat, marked: set<nat>, x: nat)
    requires InTree(n, x) && Depth(x) < n
    decreases n - Depth(x), 0
  {
    Children(x);
    Covered(n, marked, 2 * x) && Covered(n, marked, 2 * x + 1)
  }

  /** What the test of `buddy_tree_release` finds out: a status is full exactly for a covered node. */
  lemma {:induction false} FullIff(n: nat, marked: set<nat>, x: nat)
    requires Legal(n, marked) && InTree(n, x)
    ensures Status(n, marked, x) == Width(n, x) <==> Covered(n, marked, x)
    decreases n - Depth(x)
  {
    if x !in marked && Depth(x) < n {
      Children(x);
      FullIff(n, marked, 2 * x);
      FullIff(n, marked, 2 * x + 1);
    }
  }

  /** Two halves that were allocated one by one look like the whole. */
  lemma HalvesLookWhole()
    ensures Legal(2, {2, 3}) && 1 !in {2, 3} && Covered(2, {2, 3}, 1)
    ensures Status(2, {2, 3}, 1) == Status(2, {1}, 1) == Width(2, 1)
  {
    var marked := {2, 3};
    SmallTree();
    MarkedIsFull(2, {1}, 1);
    HalvesMarked(marked);
    HalvesLegal();
    FullIff(2, marked, 1);
  }

  lemma SmallTree()
    ensures InTree(2, 1) && InTree(2, 2) && InTree(2, 3) && Depth(1) == 1 && Depth(2) == 2 && Depth(3) == 2
  {
  }

  lemma HalvesLegal()
    ensures Legal(2, {2, 3})
  {
    SmallTree();
    SameDepthApart(2, 3);
  }

  lemma HalvesMarked(marked: set<nat>)
    requires 2 in marked && 3 in marked
    ensures InTree(2, 1) && Covered(2, marked, 1)
  {
    SmallTree();
    assert Covered(2, marked, 2) && Covered(2, marked, 3);
    assert HalvesCovered(2, marked, 1);
  }

  lemma MarkedIsFull(n: nat, marked: set<nat>, x: nat)
    requires InTree(n, x) && x in marked
    ensures Status(n, marked, x) == Width(n, x)
  {
  }

  /** What is left of the allocated nodes without those at or below `p`. */
  function Pruned(marked: set<nat>, p: nat): set<nat>
    requires p >= 1
  {
    set m | m in marked && (m == 0 || !IsAnc(p, m))
  }

  predicate StrictlyBelow(p: nat, x: nat)
    requires p >= 1 && x >= 1
  {
    IsAnc(p, x) && x != p
  }

  /** The numbers after a release of `p` that frees `p` and leaves everything below it as it was. */
  function Torn(n: nat, marked: set<nat>, p: nat, x: nat): nat
    requires InTree(n, p) && InTree(n, x)
  {
    if StrictlyBelow(p, x) then Status(n, marked, x) else Status(n, Pruned(marked, p), x)
  }

  lemma PrunedLegal(n: nat, marked: set<nat>, p: nat)
    requires Legal(n, marked) && InTree(n, p)
    ensures Legal(n, Pruned(marked, p)) && Status(n, Pruned(marked, p), p) == 0
    ensures DifferBelow(marked, Pruned(marked, p), p)
  {
    ZeroIsClear(n, Pruned(marked, p), p);
  }

  /** Releasing a full node that is not allocated itself leaves numbers that no allocated set has. */
  lemma TornIsNoTree(n: nat, marked: set<nat>, p: nat, other: set<nat>)
    requires Legal(n, marked) && InTree(n, p) && Covered(n, marked, p) && p !in marked && Legal(n, other)
    ensures exists x: nat :: InTree(n, x) && Status(n, other, x) != Torn(n, marked, p, x)
  {
    hide Status, Width, Torn, Covered;
    TornNumbers(n, marked, p);
    Children(p);
    if Status(n, other, p) == 0 && Status(n, other, 2 * p) != 0 {
      ClearDown(n, other, p, 2 * p);
    }
  }

  lemma TornNumbers(n: nat, marked: set<nat>, p: nat)
    requires Legal(n, marked) && InTree(n, p) && Covered(n, marked, p) && p !in marked
    ensures InTree(n, 2 * p) && IsAnc(p, 2 * p) && Torn(n, marked, p, p) == 0 && Torn(n, marked, p, 2 * p) > 0
  {
    hide Status, Width;
    Children(p);
    assert IsAnc(p, p) && StrictlyBelow(p, 2 * p);
    FullIff(n, marked, 2 * p);
    PrunedLegal(n, marked, p);
    WidthPositive(n, 2 * p);
  }

  lemma WidthPositive(n: nat, x: nat)
    requires InTree(n, x)
    ensures Width(n, x) > 0
  {
  }

  lemma ClearDown(n: nat, marked: set<nat>, p: nat, x: nat)
    requires Legal(n, marked) && InTree(n, p) && InTree(n, x) && IsAnc(p, x) && Status(n, marked, p) == 0
    ensures Status(n, marked, x) == 0
  {
    ZeroIsClear(n, marked, p);
    forall m | m in marked ensures !IsAnc(x, m) { if IsAnc(x, m) { AncTrans(p, x, m); } }
    ZeroIsClear(n, marked, x);
  }

  /** Two sets that may differ in the node `p` only. */
  ghost predicate DifferAt(a: set<nat>, b: set<nat>, p: nat)
  {
    forall m: nat :: m != p ==> (m in a <==> m in b)
  }

  lemma StatusDifferAt(n: nat, a: set<nat>, b: set<nat>, p: nat, x: nat)
    requires InTree(n, x) && p >= 1 && DifferAt(a, b, p) && !IsAnc(x, p)
    ensures Status(n, a, x) == Status(n, b, x)
  {
    StatusFrame(n, a, b, x);
  }

  /** Two sets that may differ at and below the node `p` only. */
  ghost predicate DifferBelow(a: set<nat>, b: set<nat>, p: nat)
    requires p >= 1
  {
    forall m: nat :: m >= 1 && !IsAnc(p, m) ==> (m in a <==> m in b)
  }

  lemma StatusDifferBelow(n: nat, a: set<nat>, b: set<nat>, p: nat, x: nat)
    requires InTree(n, x) && InTree(n, p) && DifferBelow(a, b, p) && !IsAnc(x, p) && !IsAnc(p, x)
    ensures Status(n, a, x) == Status(n, b, x)
  {
    forall m: nat | m >= 1 && IsAnc(x, m) ensures m in a <==> m in b {
      if IsAnc(p, m) {
        if Depth(x) <= Depth(p) { AncChain(x, p, m); } else { AncChain(p, x, m); }
      }
    }
    StatusFrame(n, a, b, x);
  }

  /**
    Why the early exit of `update_parent_chain` is right: once a node on the path from `p`
    to the root has the status it had before, so have all the nodes above it.
   */
  lemma {:induction false} UnchangedAbove(n: nat, a: set<nat>, b: set<nat>, p: nat, c: nat, x: nat)
    requires InTree(n, p) && DifferBelow(a, b, p) && InTree(n, c) && IsAnc(c, p) && InTree(n, x) && IsAnc(x, c)
    requires Status(n, a, c) == Status(n, b, c)
    ensures Status(n, a, x) == Status(n, b, x)
    decreases n - Depth(x)
  {
    if x != c {
      AncDepth(x, c);
      AncDepth(c, p);
      Children(x);
      AncChild(x, c);
      var on, off := if IsAnc(2 * x, c) then 2 * x else 2 * x + 1, if IsAnc(2 * x, c) then 2 * x + 1 else 2 * x;
      UnchangedAbove(n, a, b, p, c, on);
      AncTrans(on, c, p);
      OffPath(on, off, p);
      AncTrans(x, c, p);
      NotBelow(p, x);
      StatusDifferBelow(n, a, b, p, off);
    }
  }

  /** The sibling of a node on the path to `p` is neither above nor below `p`. */
  lemma OffPath(on: nat, off: nat, p: nat)
    requires on >= 1 && off >= 1 && p >= 1 && on != off && Depth(on) == Depth(off) && IsAnc(on, p)
    ensures !IsAnc(off, p) && !IsAnc(p, off)
  {
    AncDepth(on, p);
    if IsAnc(off, p) { AncChain(on, off, p); SameDepthApart(on, off); }
    if IsAnc(p, off) { AncDepth(p, off); AncTrans(on, p, off); SameDepthApart(on, off); }
  }

  /** A proper ancestor of `p` is not below it. */
  lemma NotBelow(p: nat, x: nat)
    requires p >= 1 && x >= 1 && IsAnc(x, p) && x != p
    ensures !IsAnc(p, x)
  {
    AncDepth(x, p);
    if IsAnc(p, x) { AncDepth(p, x); }
  }
}
