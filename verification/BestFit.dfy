/**
  Which of the free nodes the search takes, and why: at every fork where both halves have room it
  goes into the fuller one, and so leaves the largest free node that any choice could leave.
 */
module BestFit {
  import opened TreeShape
  import opened StatusSpec

  function Sibling(a: nat): nat { if a % 2 == 0 then a + 1 else a - 1 }

  /**
    The half `a` of its parent is the one to search for a node of depth `d`: the other half has no
    room, is less full, or is as full and the right one.
   */
  predicate Chosen(n: nat, marked: set<nat>, a: nat, d: nat)
    requires a > 1 && InTree(n, a) && Depth(a) <= d <= n
  {
    SiblingInTree(n, a);
    var b := Sibling(a);
    || Status(n, marked, b) > d - Depth(a)
    || Status(n, marked, a) > Status(n, marked, b)
    || (Status(n, marked, a) == Status(n, marked, b) && a < b)
  }

  lemma SiblingInTree(n: nat, a: nat)
    requires a > 1 && InTree(n, a)
    ensures var b := Sibling(a); b > 1 && InTree(n, b) && Depth(b) == Depth(a) && b / 2 == a / 2 && b != a
  {
  }

  predicate OnPath(n: nat, marked: set<nat>, a: nat, d: nat)
    requires a > 1
  {
    InTree(n, a) && Depth(a) <= d <= n && Chosen(n, marked, a, d)
  }

  /** The search for a node of depth `d` comes to `x`. */
  ghost predicate Reached(n: nat, marked: set<nat>, x: nat, d: nat)
    requires x >= 1
  {
    forall a: nat :: a > 1 && IsAnc(a, x) ==> OnPath(n, marked, a, d)
  }

  lemma AtRoot(n: nat, marked: set<nat>, d: nat)
    ensures Reached(n, marked, 1, d)
  {
    forall a: nat | a > 1 && IsAnc(a, 1) ensures false { AncDepth(a, 1); }
  }

  lemma StepDown(n: nat, marked: set<nat>, x: nat, c: nat, d: nat)
    requires x >= 1 && c > 1 && c / 2 == x && Reached(n, marked, x, d) && OnPath(n, marked, c, d)
    ensures Reached(n, marked, c, d)
  {
    hide OnPath;
    forall a: nat | a > 1 && IsAnc(a, c) ensures OnPath(n, marked, a, d) {
      if a != c { assert IsAnc(a, x); }
    }
  }

  lemma CombineMonotone(l: nat, r: nat, l': nat, r': nat)
    requires l <= l' && r <= r'
    ensures Combine(l, r) <= Combine(l', r')
  {
  }

  /** Allocating a free node lowers no status. */
  lemma {:induction false} MarkRaises(n: nat, marked: set<nat>, y: nat, x: nat)
    requires InTree(n, x)
    ensures Status(n, marked, x) <= Status(n, marked + {y}, x)
    decreases n - Depth(x)
  {
    if x !in marked + {y} && Depth(x) < n {
      Children(x);
      MarkRaises(n, marked, y, 2 * x);
      MarkRaises(n, marked, y, 2 * x + 1);
      CombineMonotone(Status(n, marked, 2 * x), Status(n, marked, 2 * x + 1), Status(n, marked + {y}, 2 * x),
        Status(n, marked + {y}, 2 * x + 1));
    }
  }

  lemma MarkShows(n: nat, marked: set<nat>, y: nat, x: nat)
    requires Legal(n, marked) && InTree(n, y) && Free(marked, y) && InTree(n, x) && IsAnc(x, y)
    ensures Status(n, marked + {y}, x) > 0
  {
    LegalAdd(n, marked, y);
    ZeroIsClear(n, marked + {y}, x);
  }

  /** A free node below `x` shows in the status of `x`. */
  lemma RoomFor(n: nat, marked: set<nat>, y: nat, x: nat)
    requires Legal(n, marked) && InTree(n, y) && Free(marked, y) && InTree(n, x) && IsAnc(x, y)
    ensures Depth(x) <= Depth(y) && Status(n, marked, x) <= Depth(y) - Depth(x)
  {
    hide Status, Legal, Depth, IsAnc;
    AncDepth(x, y);
    StatusMeaning(n, marked, x, Depth(y) - Depth(x));
    assert FreeBelow(marked, x, Depth(y) - Depth(x), y);
  }

  /** Seen from any node above both, taking `p` leaves as much room as taking any other free node of its depth. */
  lemma {:induction false} BestFrom(n: nat, marked: set<nat>, p: nat, y: nat, x: nat)
    requires Legal(n, marked) && InTree(n, p) && InTree(n, y) && Depth(p) == Depth(y)
    requires Free(marked, p) && Free(marked, y) && Reached(n, marked, p, Depth(p))
    requires InTree(n, x) && IsAnc(x, p) && IsAnc(x, y)
    ensures Status(n, marked + {p}, x) <= Status(n, marked + {y}, x)
    decreases n - Depth(x)
  {
    hide Status, Legal, Reached, Combine;
    if x == p {
      if y != p { SameDepthApart(x, y); }
    } else {
      AncDepth(x, p);
      Children(x);
      AncChild(x, p);
      AncChild(x, y);
      var on := if IsAnc(2 * x, p) then 2 * x else 2 * x + 1;
      if IsAnc(on, y) {
        BestFrom(n, marked, p, y, on);
        SameBeside(n, marked, p, y, x, on);
      } else {
        OtherSide(n, marked, p, y, x, on);
      }
    }
  }

  lemma AtFork(n: nat, marked: set<nat>, x: nat, on: nat, off: nat)
    requires InTree(n, x) && Depth(x) < n && x !in marked
    requires (on == 2 * x && off == 2 * x + 1) || (on == 2 * x + 1 && off == 2 * x)
    ensures InTree(n, on) && InTree(n, off)
    ensures Status(n, marked, x) == Combine(Status(n, marked, on), Status(n, marked, off))
  {
    Children(x);
  }

  /** A proper ancestor of a free node is not allocated, whichever free node of that depth is. */
  lemma NotTaken(marked: set<nat>, p: nat, y: nat, x: nat)
    requires p >= 1 && y >= 1 && x >= 1 && Free(marked, p) && IsAnc(x, p) && x != p && Depth(y) == Depth(p)
    ensures x !in marked + {y}
  {
    AncDepth(x, p);
  }

  /** Both nodes lie below the same child `on`: the other child is as before. */
  lemma SameBeside(n: nat, marked: set<nat>, p: nat, y: nat, x: nat, on: nat)
    requires InTree(n, p) && InTree(n, y) && Depth(p) == Depth(y) && Free(marked, p) && Free(marked, y)
    requires InTree(n, x) && Depth(x) < n && IsAnc(x, p) && IsAnc(x, y) && x != p && (on == 2 * x || on == 2 * x + 1)
    requires InTree(n, on) && IsAnc(on, p) && IsAnc(on, y)
    requires Status(n, marked + {p}, on) <= Status(n, marked + {y}, on)
    ensures Status(n, marked + {p}, x) <= Status(n, marked + {y}, x)
  {
    hide Status, Combine, Free;
    var off := if on == 2 * x then 2 * x + 1 else 2 * x;
    NotTaken(marked, p, p, x);
    NotTaken(marked, p, y, x);
    AtFork(n, marked + {p}, x, on, off);
    AtFork(n, marked + {y}, x, on, off);
    Children(x);
    OffPath(on, off, p);
    OffPath(on, off, y);
    StatusDifferAt(n, marked, marked + {p}, p, off);
    StatusDifferAt(n, marked, marked + {y}, y, off);
    var s := Status(n, marked, off);
    CombineMonotone(Status(n, marked + {p}, on), s, Status(n, marked + {y}, on), s);
  }

  /** The other node lies below the other child: that one is not fuller than the child taken. */
  lemma OtherSide(n: nat, marked: set<nat>, p: nat, y: nat, x: nat, on: nat)
    requires Legal(n, marked) && InTree(n, p) && InTree(n, y) && Depth(p) == Depth(y) <= n
    requires Free(marked, p) && Free(marked, y) && Reached(n, marked, p, Depth(p))
    requires InTree(n, x) && Depth(x) < n && IsAnc(x, p) && IsAnc(x, y) && x != p
    requires (on == 2 * x || on == 2 * x + 1) && IsAnc(on, p) && !IsAnc(on, y)
    requires IsAnc(2 * x, y) || IsAnc(2 * x + 1, y)
    ensures Status(n, marked + {p}, x) <= Status(n, marked + {y}, x)
  {
    hide Status, Combine, Free, Legal, Reached, IsAnc, Depth;
    var off := if on == 2 * x then 2 * x + 1 else 2 * x;
    NotTaken(marked, p, p, x);
    NotTaken(marked, p, y, x);
    Children(x);
    AtFork(n, marked + {p}, x, on, off);
    AtFork(n, marked + {y}, x, on, off);
    OffPath(on, off, p);
    OffPath(off, on, y);
    StatusDifferAt(n, marked, marked + {p}, p, off);
    StatusDifferAt(n, marked, marked + {y}, y, on);
    RoomFor(n, marked, y, off);
    MarkRaises(n, marked, y, off);
    MarkShows(n, marked, y, off);
    ChosenIsFuller(n, marked, p, x, on, off);
    CombineFuller(Status(n, marked + {p}, on), Status(n, marked, off), Status(n, marked, on),
      Status(n, marked + {y}, off));
  }

  lemma OneOnPath(n: nat, marked: set<nat>, a: nat, p: nat)
    requires InTree(n, p) && Reached(n, marked, p, Depth(p)) && a > 1 && IsAnc(a, p)
    ensures InTree(n, a) && Depth(a) <= Depth(p) && Chosen(n, marked, a, Depth(p))
  {
    assert OnPath(n, marked, a, Depth(p));
  }

  lemma SiblingIs(x: nat, on: nat, off: nat)
    requires (on == 2 * x && off == 2 * x + 1) || (on == 2 * x + 1 && off == 2 * x)
    ensures Sibling(on) == off
  {
  }

  lemma ChosenIsFuller(n: nat, marked: set<nat>, p: nat, x: nat, on: nat, off: nat)
    requires InTree(n, p) && Reached(n, marked, p, Depth(p)) && x >= 1 && on > 1 && IsAnc(on, p) && InTree(n, off)
    requires (on == 2 * x && off == 2 * x + 1) || (on == 2 * x + 1 && off == 2 * x)
    requires InTree(n, on) && Depth(off) == Depth(on) <= Depth(p)
    requires Status(n, marked, off) <= Depth(p) - Depth(off)
    ensures Status(n, marked, off) <= Status(n, marked, on)
  {
    hide Status, Depth, IsAnc, Reached, Sibling;
    OneOnPath(n, marked, on, p);
    SiblingIs(x, on, off);
  }

  lemma CombineFuller(after: nat, low: nat, high: nat, other: nat)
    requires low <= high && low <= other && other > 0
    ensures Combine(after, low) <= Combine(high, other)
  {
  }

  /** A free node of depth `d` apart from the one taken stays, as the root's status tells. */
  lemma LeavesMost(n: nat, marked: set<nat>, p: nat, y: nat)
    requires Legal(n, marked) && InTree(n, p) && InTree(n, y) && Depth(p) == Depth(y)
    requires Free(marked, p) && Free(marked, y) && Reached(n, marked, p, Depth(p))
    ensures InTree(n, 1) && Status(n, marked + {p}, 1) <= Status(n, marked + {y}, 1)
  {
    hide Status, Legal, Reached, Free;
    RootAnc(p);
    RootAnc(y);
    BestFrom(n, marked, p, y, 1);
  }
}
