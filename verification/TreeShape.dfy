/**
  Positions of a complete binary tree and their packed layout.

  Nodes are numbered from the root (1) downwards: the children of `x` are `2 * x` and
  `2 * x + 1`.  A tree of order `n` has the depths 1..n.  The status of a node of depth
  `d` is a unary field of `n - d + 1` bits; the fields are laid out level by level.
 */
module TreeShape {
  import opened Basics

  function Pow2(n: nat): (r: nat)
    ensures r >= 1
  {
    if n == 0 then 1 else 2 * Pow2(n - 1)
  }

  /** The depth of a node; the root has depth 1. */
  function Depth(x: nat): (d: nat)
    requires x >= 1
    ensures d >= 1
  {
    if x == 1 then 1 else Depth(x / 2) + 1
  }

  predicate InTree(n: nat, x: nat) { x >= 1 && Depth(x) <= n }

  /** The at-depth index of a node (`buddy_tree_index`): its number without the highest bit. */
  function Row(x: nat): (r: nat)
    requires x >= 1
  {
    DepthBounds(x);
    x - Pow2(Depth(x) - 1)
  }

  lemma {:induction false} DepthBounds(x: nat)
    requires x >= 1
    ensures Pow2(Depth(x) - 1) <= x < Pow2(Depth(x))
  {
    if x > 1 { DepthBounds(x / 2); }
  }

  lemma {:induction false} Pow2Monotone(a: nat, b: nat)
    requires a <= b
    ensures Pow2(a) <= Pow2(b)
    ensures a < b ==> 2 * Pow2(a) <= Pow2(b)
    decreases b
  {
    if a < b { Pow2Monotone(a, b - 1); }
  }

  lemma {:induction false} Pow2Add(a: nat, b: nat)
    ensures Pow2(a + b) == Pow2(a) * Pow2(b)
  {
    if b > 0 { Pow2Add(a, b - 1); }
  }

  /** `buddy_tree_valid` compares the number of a node with `2 ^ order`. */
  lemma InTreeBound(n: nat, x: nat)
    ensures InTree(n, x) <==> 1 <= x < Pow2(n)
  {
    if x >= 1 {
      DepthBounds(x);
      if Depth(x) <= n { Pow2Monotone(Depth(x), n); } else { Pow2Monotone(n, Depth(x) - 1); }
    }
  }

  lemma Children(x: nat)
    requires x >= 1
    ensures Depth(2 * x) == Depth(2 * x + 1) == Depth(x) + 1
    ensures Row(2 * x) == 2 * Row(x) && Row(2 * x + 1) == 2 * Row(x) + 1
  {
  }

  // ----- ancestors

  /** `a` is `x` or one of its ancestors. */
  predicate IsAnc(a: nat, x: nat)
    requires x >= 1
  {
    a == x || (x > 1 && IsAnc(a, x / 2))
  }

  lemma {:induction false} AncDepth(a: nat, x: nat)
    requires x >= 1 && IsAnc(a, x)
    ensures 1 <= a <= x && Depth(a) <= Depth(x)
    ensures Depth(a) == Depth(x) ==> a == x
  {
    if a != x { AncDepth(a, x / 2); }
  }

  lemma {:induction false} AncTrans(a: nat, b: nat, c: nat)
    requires c >= 1 && b >= 1 && IsAnc(a, b) && IsAnc(b, c)
    ensures IsAnc(a, c)
  {
    if b != c { AncTrans(a, b, c / 2); }
  }

  /** The ancestors of a node form a chain. */
  lemma {:induction false} AncChain(a: nat, b: nat, c: nat)
    requires c >= 1 && IsAnc(a, c) && IsAnc(b, c) && a >= 1 && b >= 1 && Depth(a) <= Depth(b)
    ensures IsAnc(a, b)
  {
    if b != c {
      AncDepth(b, c / 2);
      AncDepth(a, c);
      AncChain(a, b, c / 2);
    }
  }

  /** A proper descendant lies below one of the two children. */
  lemma {:induction false} AncChild(a: nat, x: nat)
    requires a >= 1 && x >= 1 && IsAnc(a, x) && a != x
    ensures IsAnc(2 * a, x) != IsAnc(2 * a + 1, x)
  {
    if x / 2 == a {
      if IsAnc(2 * a, x) && IsAnc(2 * a + 1, x) { AncDepth(2 * a, x); AncDepth(2 * a + 1, x); Children(a); }
    } else {
      AncChild(a, x / 2);
      AncDepth(a, x / 2);
    }
  }

  lemma {:induction false} RootAnc(x: nat)
    requires x >= 1
    ensures IsAnc(1, x)
  {
    if x > 1 { RootAnc(x / 2); }
  }

  /** A child is an ancestor of `y` only if its parent is. */
  lemma ChildAnc(x: nat, y: nat)
    requires x >= 1 && y >= 1
    ensures IsAnc(2 * x, y) || IsAnc(2 * x + 1, y) ==> IsAnc(x, y) && x != y
  {
    assert IsAnc(x, 2 * x) && IsAnc(x, 2 * x + 1);
    if IsAnc(2 * x, y) { AncTrans(x, 2 * x, y); AncDepth(2 * x, y); }
    if IsAnc(2 * x + 1, y) { AncTrans(x, 2 * x + 1, y); AncDepth(2 * x + 1, y); }
  }

  // ----- the leaves below a node

  /** The number of leaves below a node. */
  function Leaves(n: nat, x: nat): (r: nat)
    requires InTree(n, x)
    ensures r >= 1
  {
    Pow2(n - Depth(x))
  }

  /** The number of the first leaf below a node, counted from the left. */
  function First(n: nat, x: nat): nat
    requires InTree(n, x)
  {
    Row(x) * Leaves(n, x)
  }

  lemma LeavesSplit(n: nat, x: nat)
    requires InTree(n, x) && Depth(x) < n
    ensures Depth(2 * x) == Depth(2 * x + 1) == Depth(x) + 1
    ensures Leaves(n, 2 * x) == Leaves(n, 2 * x + 1) && Leaves(n, x) == 2 * Leaves(n, 2 * x)
    ensures First(n, 2 * x) == First(n, x)
    ensures First(n, 2 * x + 1) == First(n, x) + Leaves(n, 2 * x)
  {
    hide Row, Pow2;
    Children(x);
    Pow2Double(n - Depth(x));
    DoubleMul(Row(x), Leaves(n, 2 * x));
  }

  /** The leaves of a node lie within those of its ancestors. */
  lemma {:induction false} AncContains(n: nat, a: nat, x: nat)
    requires InTree(n, x) && IsAnc(a, x)
    ensures InTree(n, a)
    ensures First(n, a) <= First(n, x) && First(n, x) + Leaves(n, x) <= First(n, a) + Leaves(n, a)
  {
    if a != x {
      AncContains(n, a, x / 2);
      LeavesSplit(n, x / 2);
    }
  }

  /** Nodes of which neither is an ancestor of the other have no leaf in common. */
  lemma {:induction false} Laminar(n: nat, x: nat, y: nat)
    requires InTree(n, x) && InTree(n, y) && !IsAnc(x, y) && !IsAnc(y, x)
    ensures First(n, x) + Leaves(n, x) <= First(n, y) || First(n, y) + Leaves(n, y) <= First(n, x)
    decreases x + y
  {
    RootAnc(x); RootAnc(y);
    if Depth(x) > Depth(y) {
      if IsAnc(x / 2, y) { AncDepth(x / 2, y); }
      Laminar(n, x / 2, y);
      AncContains(n, x / 2, x);
    } else if Depth(x) < Depth(y) {
      if IsAnc(y / 2, x) { AncDepth(y / 2, x); }
      Laminar(n, x, y / 2);
      AncContains(n, y / 2, y);
    } else if x / 2 == y / 2 {
      LeavesSplit(n, x / 2);
    } else {
      SameDepthApart(x / 2, y / 2);
      Laminar(n, x / 2, y / 2);
      AncContains(n, x / 2, x);
      AncContains(n, y / 2, y);
    }
  }

  lemma SameDepthApart(x: nat, y: nat)
    requires x >= 1 && y >= 1 && Depth(x) == Depth(y) && x != y
    ensures !IsAnc(x, y) && !IsAnc(y, x)
  {
    if IsAnc(x, y) { AncDepth(x, y); }
    if IsAnc(y, x) { AncDepth(y, x); }
  }

  // ----- the packed layout

  /** The number of bits of a node's status field (`local_offset`). */
  function Width(n: nat, x: nat): (w: nat)
    requires InTree(n, x)
    ensures w >= 1
  {
    n - Depth(x) + 1
  }

  /** The number of bits that the fields of depth `d` take together. */
  function LevelBits(n: nat, d: nat): nat
    requires 1 <= d <= n
  {
    (n - d + 1) * Pow2(d - 1)
  }

  /** The first bit of the fields of depth `d`. */
  function LevelStart(n: nat, d: nat): nat
    requires 1 <= d <= n + 1
  {
    if d == 1 then 0 else LevelStart(n, d - 1) + LevelBits(n, d - 1)
  }

  /** The number of bits of a whole tree. */
  function TotalBits(n: nat): nat { LevelStart(n, n + 1) }

  /** The first bit of the field of a node (`bitset_location`). */
  function Loc(n: nat, x: nat): nat
    requires InTree(n, x)
  {
    LevelStart(n, Depth(x)) + Width(n, x) * Row(x)
  }

  lemma {:induction false} LevelStartMonotone(n: nat, d: nat, e: nat)
    requires 1 <= d <= e <= n + 1
    ensures LevelStart(n, d) <= LevelStart(n, e)
    decreases e
  {
    hide LevelBits;
    if d < e { LevelStartMonotone(n, d, e - 1); }
  }

  lemma MulStep(w: nat, r: nat, c: nat)
    requires r < c
    ensures w * r + w <= w * c
  {
    MulMonotone(r + 1, c, w);
  }

  lemma LocWithinLevel(n: nat, x: nat)
    requires InTree(n, x)
    ensures LevelStart(n, Depth(x)) <= Loc(n, x)
    ensures Loc(n, x) + Width(n, x) <= LevelStart(n, Depth(x) + 1) <= TotalBits(n)
  {
    hide LevelStart, Pow2;
    DepthBounds(x);
    Pow2Double(Depth(x));
    LevelNext(n, Depth(x));
    MulStep(Width(n, x), Row(x), Pow2(Depth(x) - 1));
    LevelStartMonotone(n, Depth(x) + 1, n + 1);
  }

  lemma LevelNext(n: nat, d: nat)
    requires 1 <= d <= n
    ensures LevelStart(n, d + 1) == LevelStart(n, d) + (n - d + 1) * Pow2(d - 1)
  {
  }

  /** In closed form, how many bits a tree has. */
  lemma TotalBitsClosed(n: nat)
    ensures TotalBits(n) == Pow2(n + 1) - n - 2
  {
    LevelStartClosed(n, n + 1);
    Pow2Double(n + 1);
  }

  /** In closed form, how many bits come before a level. */
  lemma {:induction false} LevelStartClosed(n: nat, d: nat)
    requires 1 <= d <= n + 1
    ensures LevelStart(n, d) == Pow2(d - 1) * (n - d + 3) - n - 2
  {
    hide Pow2, LevelStart;
    LevelsBegin(n);
    if d > 1 {
      LevelStartClosed(n, d - 1);
      LevelNext(n, d - 1);
      Pow2Double(d - 1);
      TwoLevels(Pow2(d - 2), n - d + 2);
    }
  }

  lemma LevelsBegin(n: nat)
    ensures LevelStart(n, 1) == 0 && Pow2(0) == 1
  {
  }

  lemma TwoLevels(p: nat, w: nat)
    ensures p * (w + 2) + w * p == (2 * p) * (w + 1)
  {
  }

  lemma Pow2Double(n: nat)
    requires n >= 1
    ensures Pow2(n) == 2 * Pow2(n - 1)
  {
  }

  /** Fields of distinct nodes do not share a bit. */
  lemma FieldsDisjoint(n: nat, x: nat, y: nat)
    requires InTree(n, x) && InTree(n, y) && x != y
    ensures Loc(n, x) + Width(n, x) <= Loc(n, y) || Loc(n, y) + Width(n, y) <= Loc(n, x)
  {
    if Depth(x) < Depth(y) { FieldsOfLevels(n, x, y); }
    else if Depth(y) < Depth(x) { FieldsOfLevels(n, y, x); }
    else {
      hide LevelStart, Pow2;
      if Row(x) < Row(y) { MulStep(Width(n, x), Row(x), Row(y)); }
      else { MulStep(Width(n, x), Row(y), Row(x)); }
    }
  }

  lemma FieldsOfLevels(n: nat, x: nat, y: nat)
    requires InTree(n, x) && InTree(n, y) && Depth(x) < Depth(y)
    ensures Loc(n, x) + Width(n, x) <= Loc(n, y)
  {
    hide LevelStart;
    LocWithinLevel(n, x);
    LocWithinLevel(n, y);
    LevelStartMonotone(n, Depth(x) + 1, Depth(y));
  }

  /** The field of the sibling is the neighbouring one. */
  lemma SiblingLoc(n: nat, x: nat)
    requires InTree(n, x) && x > 1
    ensures var s := if x % 2 == 0 then x + 1 else x - 1;
            s >= 1 && s / 2 == x / 2 && Depth(s) == Depth(x) && InTree(n, s) && Width(n, s) == Width(n, x)
            && Loc(n, s) == Loc(n, x) + Width(n, x) - 2 * Width(n, x) * (x % 2)
  {
    Children(x / 2);
    var w := Width(n, x);
    assert w * (Row(x) + 1) == w * Row(x) + w;
    if x % 2 == 1 { assert w * (Row(x) - 1) == w * Row(x) - w; }
  }
}
