/**
  Conservation: in every tree, the leaves that the traversal counts as free and the leaves
  of the allocated nodes add up to all the leaves.
 */
module TreeAccounting {
  import opened TreeShape
  import opened StatusSpec
  import opened BuddyTree

  /** The leaves of the marked nodes at or below `x`. */
  ghost function MarkedLeaves(n: nat, marked: set<nat>, x: nat): nat
    requires InTree(n, x)
    decreases n - Depth(x)
  {
    if x in marked then Leaves(n, x)
    else if Depth(x) == n then 0
    else Children(x); MarkedLeaves(n, marked, 2 * x) + MarkedLeaves(n, marked, 2 * x + 1)
  }

  lemma {:induction false} Balance(n: nat, marked: set<nat>, x: nat)
    requires InTree(n, x)
    ensures FreeLeaves(n, marked, x) + MarkedLeaves(n, marked, x) == Leaves(n, x)
    decreases n - Depth(x)
  {
    if x !in marked && Depth(x) < n {
      LeavesSplit(n, x);
      Balance(n, marked, 2 * x);
      Balance(n, marked, 2 * x + 1);
    }
  }

  lemma {:induction false} MarkedFrame(n: nat, a: set<nat>, b: set<nat>, p: nat, x: nat)
    requires InTree(n, x) && p >= 1 && DifferAt(a, b, p) && !IsAnc(x, p)
    ensures MarkedLeaves(n, a, x) == MarkedLeaves(n, b, x)
    decreases n - Depth(x)
  {
    if Depth(x) < n {
      Children(x);
      ChildAnc(x, p);
      MarkedFrame(n, a, b, p, 2 * x);
      MarkedFrame(n, a, b, p, 2 * x + 1);
    }
  }

  lemma {:induction false} MarkedAdd(n: nat, marked: set<nat>, p: nat, x: nat)
    requires Legal(n, marked + {p}) && p !in marked && InTree(n, p) && InTree(n, x) && IsAnc(x, p)
    ensures MarkedLeaves(n, marked + {p}, x) == MarkedLeaves(n, marked, x) + Leaves(n, p)
    decreases n - Depth(x)
  {
    hide Status, Leaves, FreeLeaves;
    if x == p {
      assert Legal(n, marked);
      ZeroIsClear(n, marked, p);
      FreeLeavesDef(n, marked, p);
      Balance(n, marked, p);
    } else {
      AncDepth(x, p);
      Children(x);
      AncChild(x, p);
      var on, off := if IsAnc(2 * x, p) then 2 * x else 2 * x + 1, if IsAnc(2 * x, p) then 2 * x + 1 else 2 * x;
      MarkedAdd(n, marked, p, on);
      MarkedFrame(n, marked + {p}, marked, p, off);
    }
  }

  /** The leaves of a set of nodes, added up. */
  ghost function SumLeaves(n: nat, s: set<nat>): nat
    requires forall m :: m in s ==> InTree(n, m)
  {
    if s == {} then 0 else var m :| m in s; Leaves(n, m) + SumLeaves(n, s - {m})
  }

  lemma {:induction false} MarkedIsSum(n: nat, marked: set<nat>)
    requires n >= 1 && Legal(n, marked)
    ensures MarkedLeaves(n, marked, 1) == SumLeaves(n, marked)
  {
    if marked == {} {
      ZeroIsClear(n, {}, 1);
      FreeLeavesDef(n, {}, 1);
      Balance(n, {}, 1);
    } else {
      var m :| m in marked && SumLeaves(n, marked) == Leaves(n, m) + SumLeaves(n, marked - {m});
      MarkedIsSum(n, marked - {m});
      RootAnc(m);
      assert marked - {m} + {m} == marked;
      MarkedAdd(n, marked - {m}, m, 1);
    }
  }

  /** What the traversal reports plus what is allocated is the whole tree. */
  lemma FreePlusAllocated(n: nat, marked: set<nat>)
    requires n >= 1 && Legal(n, marked)
    ensures FreeLeaves(n, marked, 1) + SumLeaves(n, marked) == Pow2(n - 1)
  {
    Balance(n, marked, 1);
    MarkedIsSum(n, marked);
  }

  lemma {:induction false} SumRemove(n: nat, s: set<nat>, p: nat)
    requires (forall m :: m in s ==> InTree(n, m)) && p in s
    ensures SumLeaves(n, s) == Leaves(n, p) + SumLeaves(n, s - {p})
    decreases |s|
  {
    var m :| m in s && SumLeaves(n, s) == Leaves(n, m) + SumLeaves(n, s - {m});
    if m != p {
      SumRemove(n, s - {m}, p);
      SumRemove(n, s - {p}, m);
      assert s - {m} - {p} == s - {p} - {m};
    }
  }

  lemma {:induction false} SumUnion(n: nat, a: set<nat>, b: set<nat>)
    requires (forall m :: m in a + b ==> InTree(n, m)) && a !! b
    ensures SumLeaves(n, a + b) == SumLeaves(n, a) + SumLeaves(n, b)
    decreases |b|
  {
    if b == {} {
      assert a + b == a;
    } else {
      var m :| m in b;
      SumRemove(n, b, m);
      SumRemove(n, a + b, m);
      assert a + b - {m} == a + (b - {m});
      SumUnion(n, a, b - {m});
    }
  }
}
