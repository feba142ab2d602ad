/**
  The buddy allocation tree: packed bits that refine a status per node, which in turn is a
  function of the set of allocated nodes.
 */
module BuddyTree {
  import opened TreeShape
  import opened StatusSpec
  import opened BestFit
  import Bitset

  datatype Pos = Pos(index: nat, depth: nat)

  datatype Release = Success | FailPartiallyUsed

  const INVALID_POS := Pos(0, 0)

  /** A position names a node of a tree of order `n`. */
  predicate Names(n: nat, p: Pos) { p.index >= 1 && p.depth == Depth(p.index) <= n }

  /** The bits `loc..loc + w - 1` hold the number `v` in unary. */
  ghost predicate Encodes(bits: seq<bv8>, loc: nat, w: nat, v: nat)
    requires loc + w <= 8 * |bits|
  {
    forall p: nat :: loc <= p < loc + w ==> (Bitset.Test(bits, p) <==> p < loc + v)
  }

  ghost predicate Field(n: nat, bits: seq<bv8>, x: nat, v: nat)
    requires InTree(n, x) && TotalBits(n) <= 8 * |bits|
  {
    LocWithinLevel(n, x);
    Encodes(bits, Loc(n, x), Width(n, x), v)
  }

  /** The whole bitset refines the map `f` from nodes to statuses. */
  ghost predicate Packs(n: nat, bits: seq<bv8>, f: seq<nat>)
  {
    && TotalBits(n) <= 8 * |bits| && |f| == Pow2(n)
    && forall x: nat :: InTree(n, x) ==> x < |f| && f[x] <= Width(n, x) && Field(n, bits, x, f[x])
  }

  /** A unary field is read by counting its ones. */
  lemma {:induction false} UnaryCount(bits: seq<bv8>, loc: nat, w: nat, v: nat, k: nat)
    requires loc + w <= 8 * |bits| && v <= w && k <= w && Encodes(bits, loc, w, v)
    ensures Bitset.Count(bits, loc, loc + k) == if k < v then k else v
    decreases k
  {
    hide Bitset.Test;
    if k > 0 {
      UnaryCount(bits, loc, w, v, k - 1);
      var p := loc + k - 1;
      assert Bitset.Test(bits, p) <==> p < loc + v;
    }
  }

  /** Rewriting one field changes the status of that node and of no other. */
  lemma PacksUpdate(n: nat, was: seq<bv8>, now: seq<bv8>, f: seq<nat>, x: nat, v: nat)
    requires Packs(n, was, f) && InTree(n, x) && v <= Width(n, x) && |was| == |now|
    requires Field(n, now, x, v)
    requires forall p: nat :: p < 8 * |was| && !(Loc(n, x) <= p < Loc(n, x) + Width(n, x)) ==>
               Bitset.Test(now, p) == Bitset.Test(was, p)
    ensures x < |f| && Packs(n, now, f[x := v])
  {
    hide Bitset.Test, Loc, TotalBits;
    forall y: nat | InTree(n, y) && y != x ensures Field(n, now, y, f[y]) {
      FieldsDisjoint(n, x, y);
      LocWithinLevel(n, y);
      assert Field(n, was, y, f[y]);
    }
  }

  /** `size_for_order`, as the level offset it computes. */
  method SizeForOrder(order: nat, target: nat) returns (result: nat)
    requires target <= order
    ensures result == LevelStart(order, order - target + 1)
  {
    result := 0;
    var o, multi := order, 1;
    while o != target
      invariant target <= o <= order
      invariant multi == Pow2(order - o)
      invariant result == LevelStart(order, order - o + 1)
    {
      LevelNext(order, order - o + 1);
      result := result + o * multi;
      o := o - 1;
      multi := multi * 2;
    }
  }

  class Tree {
    const order: nat
    const bits: array<bv8>
    /** The memoised level offsets, indexed by field width. */
    const sizeForOrder: seq<nat>
    /** The abstract contents of the bitset. */
    ghost var status: seq<nat>
    /** The nodes that were marked and not yet released. */
    ghost var marked: set<nat>

    ghost predicate Packed()
      reads this, bits
    {
      && order >= 1
      && |sizeForOrder| == order + 1
      && (forall w :: 1 <= w <= order ==> sizeForOrder[w] == LevelStart(order, order - w + 1))
      && Packs(order, bits[..], status)
    }

    /** The stored statuses are those of the marked nodes, which form a legal set. */
    ghost predicate Valid()
      reads this, bits
    {
      && Packed()
      && Legal(order, marked)
      && forall x: nat :: InTree(order, x) ==> status[x] == Status(order, marked, x)
    }

    /** `buddy_tree_init` */
    constructor (order: nat)
      requires order >= 1
      ensures Valid() && this.order == order && marked == {} && fresh(bits)
    {
      var b := new bv8[TotalBits(order) / 8 + 1];
      for i := 0 to b.Length
        invariant forall k :: 0 <= k < i ==> b[k] == 0
      {
        b[i] := 0;
      }
      var memo: seq<nat> := [];
      for i := 0 to order + 1
        invariant |memo| == i
        invariant forall k :: 0 <= k < b.Length ==> b[k] == 0
        invariant forall w :: 1 <= w < i ==> memo[w] == LevelStart(order, order - w + 1)
      {
        var s := SizeForOrder(order, i);
        memo := memo + [s];
      }
      this.order := order;
      bits := b;
      sizeForOrder := memo;
      marked := {};
      status := seq(Pow2(order), _ => 0);
      new;
      EmptyPacks(order, bits[..], status);
      forall x: nat | InTree(order, x) ensures Status(order, {}, x) == 0 { ZeroIsClear(order, {}, x); }
    }

    static lemma EmptyPacks(n: nat, bits: seq<bv8>, f: seq<nat>)
      requires TotalBits(n) <= 8 * |bits| && |f| == Pow2(n)
      requires forall i :: 0 <= i < |bits| ==> bits[i] == 0
      requires forall i :: 0 <= i < |f| ==> f[i] == 0
      ensures Packs(n, bits, f)
    {
      hide Loc, TotalBits, Bitset.Test;
      forall x: nat | InTree(n, x) ensures x < |f| && f[x] <= Width(n, x) && Field(n, bits, x, f[x]) {
        InTreeBound(n, x);
        LocWithinLevel(n, x);
        forall p: nat | Loc(n, x) <= p < Loc(n, x) + Width(n, x) ensures !Bitset.Test(bits, p) {
          ZeroTest(bits, p);
        }
      }
    }

    static lemma ZeroTest(bits: seq<bv8>, p: nat)
      requires p < 8 * |bits| && bits[p / 8] == 0
      ensures !Bitset.Test(bits, p)
    {
      Bitset.BitOps(0, 0, p % 8);
    }

    /** `buddy_tree_internal_position_tree`: the field of a position. */
    method InternalPosition(pos: Pos) returns (loc: nat, width: nat)
      requires Packed() && Names(order, pos)
      ensures loc == Loc(order, pos.index) && width == Width(order, pos.index)
    {
      hide Loc, LevelStart, Packs;
      width := order - pos.depth + 1;
      DepthBounds(pos.index);
      var row := pos.index - Pow2(pos.depth - 1);
      loc := sizeForOrder[width] + width * row;
      LocDef(order, pos.index);
    }

    static lemma LocDef(n: nat, x: nat)
      requires InTree(n, x)
      ensures Loc(n, x) == LevelStart(n, Depth(x)) + Width(n, x) * Row(x)
    {
    }

    /** `read_from_internal_position` */
    method ReadAt(loc: nat, width: nat, ghost x: nat) returns (v: nat)
      requires Packed() && InTree(order, x) && loc == Loc(order, x) && width == Width(order, x)
      ensures x < |status| && v == status[x]
    {
      hide Loc, Bitset.Test, Bitset.Count;
      LocWithinLevel(order, x);
      var ones := bits[..];
      assert Field(order, ones, x, status[x]);
      if !Bitset.Test(ones, loc) {
        return 0;
      }
      v := Bitset.CountRange(bits, loc, loc + width - 1);
      UnaryCount(ones, loc, width, status[x], width);
    }

    /** `compare_with_internal_position`: is the status at least `value`? */
    method CompareAt(loc: nat, value: nat, ghost x: nat) returns (b: bool)
      requires Packed() && InTree(order, x) && loc == Loc(order, x) && 1 <= value <= Width(order, x)
      ensures x < |status| && b == (status[x] >= value)
    {
      hide Loc, Bitset.Test;
      LocWithinLevel(order, x);
      assert Field(order, bits[..], x, status[x]);
      b := Bitset.Test(bits[..], loc + value - 1);
    }

    /** `write_to_internal_position` */
    method WriteAt(loc: nat, width: nat, value: nat, ghost x: nat)
      requires Packed() && InTree(order, x) && loc == Loc(order, x) && width == Width(order, x) && value <= width
      modifies this`status, bits
      ensures Packed()
      ensures x < |old(status)| && status == old(status)[x := value]
    {
      hide Loc, Bitset.Test, TotalBits;
      LocWithinLevel(order, x);
      ghost var was := bits[..];
      Bitset.ClearRange(bits, loc, loc + width - 1);
      if value != 0 {
        Bitset.SetRange(bits, loc, loc + value - 1);
      }
      PacksUpdate(order, was, bits[..], status, x, value);
      status := status[x := value];
    }

    /** `buddy_tree_status` */
    method StatusAt(pos: Pos) returns (v: nat)
      requires Valid() && Names(order, pos)
      ensures v == Status(order, marked, pos.index)
    {
      hide Packs, Loc, Status;
      var loc, width := InternalPosition(pos);
      v := ReadAt(loc, width, pos.index);
    }

    /**
      The stored statuses while the change at `p` has been carried up to the node `c`; what lies
      strictly below `p` is as in `was`.
     */
    ghost predicate CarriedTo(before: set<nat>, after: set<nat>, p: nat, c: nat, was: seq<nat>)
      reads this
    {
      CarriedIn(status, order, before, after, p, c, was)
    }

    static ghost predicate CarriedIn(status: seq<nat>, n: nat, before: set<nat>, after: set<nat>, p: nat, c: nat,
        was: seq<nat>)
    {
      && InTree(n, p) && InTree(n, c) && IsAnc(c, p)
      && |status| == |was| == Pow2(n)
      && (forall x: nat :: InTree(n, x) ==> x < |status|)
      && (forall x: nat :: InTree(n, x) && StrictlyBelow(p, x) ==> status[x] == was[x])
      && (forall x: nat :: InTree(n, x) && !StrictlyBelow(p, x) ==>
            status[x] == if IsAnc(x, c) && x != c then Status(n, before, x) else Status(n, after, x))
    }

    /** All statuses are those of `after`, but for the nodes strictly below `p`, which are as in `was`. */
    ghost predicate Repaired(after: set<nat>, p: nat, was: seq<nat>)
      requires p >= 1
      reads this
    {
      && |status| == |was| && (forall x: nat :: InTree(order, x) ==> x < |status|)
      && forall x: nat :: InTree(order, x) ==>
            status[x] == if StrictlyBelow(p, x) then was[x] else Status(order, after, x)
    }

    /**
      `update_parent_chain`: repairs the ancestors of a changed node, stopping as soon as an
      ancestor already has its new status.
     */
    method UpdateParentChain(pos: Pos, loc0: nat, width0: nat, size0: nat, ghost before: set<nat>,
        ghost after: set<nat>, ghost was: seq<nat>)
      requires Packed() && Names(order, pos)
      requires DifferBelow(before, after, pos.index) && CarriedTo(before, after, pos.index, pos.index, was)
      requires forall m :: m in after && m != pos.index ==> m >= 1 && !IsAnc(m, pos.index)
      requires loc0 == Loc(order, pos.index) && width0 == Width(order, pos.index) && size0 == status[pos.index]
      modifies this`status, bits
      ensures Packed() && Repaired(after, pos.index, was)
    {
      hide Packed, Loc, Width, Status, IsAnc, Depth, DifferBelow, StrictlyBelow, Repaired, CarriedIn;
      var cur, loc, width, size := pos, loc0, width0, size0;
      StatusLength();
      assert InTree(order, pos.index);
      while cur.index != 1
        invariant Packed() && Names(order, cur)
        invariant CarriedTo(before, after, pos.index, cur.index, was)
        invariant loc == Loc(order, cur.index) && width == Width(order, cur.index)
        invariant cur.index < |status| && size == status[cur.index]
        decreases cur.index
      {
        var parent := Pos(cur.index / 2, cur.depth - 1);
        var target, sizeParent, ploc, pwidth := ParentTarget(cur, loc, width, size, pos.index, before, after, was);
        if target == sizeParent {
          EarlyExit(before, after, pos.index, cur.index, was);
          return;
        }
        ghost var last := status;
        WriteAt(ploc, pwidth, target, parent.index);
        StatusLength();
        CarryUp(last, before, after, pos.index, cur.index, target, was);
        cur, loc, width, size := parent, ploc, pwidth, target;
      }
      Carried(before, after, pos.index, was);
    }

    /** The first half of the loop body: the new and the stored status of the parent. */
    method ParentTarget(cur: Pos, loc: nat, width: nat, size: nat, ghost p: nat, ghost before: set<nat>,
        ghost after: set<nat>, ghost was: seq<nat>)
      returns (target: nat, sizeParent: nat, ploc: nat, pwidth: nat)
      requires Packed() && Names(order, cur) && cur.index > 1
      requires CarriedTo(before, after, p, cur.index, was)
      requires forall m :: m in after && m != p ==> m >= 1 && !IsAnc(m, p)
      requires loc == Loc(order, cur.index) && width == Width(order, cur.index) && size == status[cur.index]
      ensures Names(order, Pos(cur.index / 2, cur.depth - 1)) && cur.index / 2 < |status|
      ensures ploc == Loc(order, cur.index / 2) && pwidth == Width(order, cur.index / 2)
      ensures target == Status(order, after, cur.index / 2) && sizeParent == status[cur.index / 2]
    {
      hide Packs, Loc, Status, Width, CarriedIn;
      ghost var sib := if cur.index % 2 == 0 then cur.index + 1 else cur.index - 1;
      SiblingLoc(order, cur.index);
      var sibLoc := loc + width - 2 * width * (cur.index % 2);
      var sibling := ReadAt(sibLoc, width, sib);
      var parent := Pos(cur.index / 2, cur.depth - 1);
      ploc, pwidth := InternalPosition(parent);
      sizeParent := ReadAt(ploc, pwidth, parent.index);
      target := Combine(size, sibling);
      BothRight(before, after, p, cur.index, sib, was);
      ParentStatus(order, after, p, cur.index, sib);
    }

    /** A node on the path that has been reached, and its sibling, have their new statuses. */
    lemma BothRight(before: set<nat>, after: set<nat>, p: nat, c: nat, sib: nat, was: seq<nat>)
      requires CarriedTo(before, after, p, c, was) && InTree(order, sib) && sib != c && Depth(sib) == Depth(c)
      ensures InTree(order, p) && InTree(order, c) && IsAnc(c, p)
      ensures c < |status| && status[c] == Status(order, after, c)
      ensures sib < |status| && status[sib] == Status(order, after, sib)
    {
      hide Status;
      NotAbove(sib, c);
      OffPath(c, sib, p);
      if StrictlyBelow(p, c) { NotBelow(p, c); }
    }

    lemma EarlyExit(before: set<nat>, after: set<nat>, p: nat, c: nat, was: seq<nat>)
      requires InTree(order, c) && c > 1 && CarriedTo(before, after, p, c, was) && DifferBelow(before, after, p)
      requires InTree(order, c / 2) && status[c / 2] == Status(order, after, c / 2)
      ensures Repaired(after, p, was)
    {
      hide Status, Packs;
      var q := c / 2;
      assert IsAnc(q, c);
      AncTrans(q, c, p);
      AncDepth(q, c);
      AncDepth(c, p);
      NotBelow(p, q);
      forall x: nat | InTree(order, x) && !StrictlyBelow(p, x) ensures status[x] == Status(order, after, x) {
        if IsAnc(x, c) && x != c {
          UnchangedAbove(order, before, after, p, q, x);
        }
      }
    }

    lemma CarryUp(last: seq<nat>, before: set<nat>, after: set<nat>, p: nat, c: nat, target: nat, was: seq<nat>)
      requires CarriedIn(last, order, before, after, p, c, was) && c > 1 && InTree(order, c / 2)
      requires c / 2 < |last| && status == last[c / 2 := target]
      requires target == Status(order, after, c / 2)
      ensures CarriedTo(before, after, p, c / 2, was)
    {
      hide Status, Packs;
      var q := c / 2;
      assert IsAnc(q, c);
      AncTrans(q, c, p);
      AncDepth(c, p);
      NotBelow(p, q);
      forall x: nat | x >= 1 && IsAnc(x, q) ensures x != c && IsAnc(x, c) { AncDepth(x, q); }
    }

    lemma Carried(before: set<nat>, after: set<nat>, p: nat, was: seq<nat>)
      requires CarriedTo(before, after, p, 1, was)
      ensures Repaired(after, p, was)
    {
      hide Status;
    }

    static lemma NotAbove(s: nat, c: nat)
      requires s >= 1 && c >= 1 && Depth(s) == Depth(c) && s != c
      ensures !IsAnc(s, c)
    {
      SameDepthApart(s, c);
    }

    static lemma ParentStatus(n: nat, after: set<nat>, p: nat, c: nat, s: nat)
      requires InTree(n, p) && InTree(n, c) && c > 1 && IsAnc(c, p) && s >= 1 && s != c && s / 2 == c / 2
      requires forall m :: m in after && m != p ==> m >= 1 && !IsAnc(m, p)
      ensures InTree(n, c / 2) && InTree(n, s)
      ensures Status(n, after, c / 2) == Combine(Status(n, after, c), Status(n, after, s))
    {
      hide Status;
      var q := c / 2;
      assert IsAnc(q, c);
      AncTrans(q, c, p);
      AncDepth(c, p);
      StatusOfParent(n, after, q);
    }

    static lemma StatusOfParent(n: nat, m: set<nat>, q: nat)
      requires InTree(n, q) && Depth(q) < n && q !in m
      ensures InTree(n, 2 * q) && InTree(n, 2 * q + 1)
      ensures Status(n, m, q) == Combine(Status(n, m, 2 * q), Status(n, m, 2 * q + 1))
    {
      Children(q);
    }

    lemma StartCarry(last: seq<nat>, before: set<nat>, after: set<nat>, p: nat, v: nat)
      requires InTree(order, p) && |last| == Pow2(order) && p < |last| && status == last[p := v]
      requires forall x: nat :: InTree(order, x) ==> x < |last| && last[x] == Status(order, before, x)
      requires DifferBelow(before, after, p) && v == Status(order, after, p)
      ensures CarriedTo(before, after, p, p, last)
    {
      hide Status;
      forall x: nat | InTree(order, x) && !StrictlyBelow(p, x) && !(IsAnc(x, p) && x != p)
        ensures status[x] == Status(order, after, x)
      {
        if x != p { StatusDifferBelow(order, before, after, p, x); }
      }
    }

    /** Where the sets agree below `p`, the repair makes every stored status right. */
    lemma AllRight(last: seq<nat>, before: set<nat>, after: set<nat>, p: nat)
      requires InTree(order, p) && Repaired(after, p, last)
      requires forall x: nat :: InTree(order, x) ==> x < |last| && last[x] == Status(order, before, x)
      requires DifferAt(before, after, p)
      ensures forall x: nat :: InTree(order, x) ==> status[x] == Status(order, after, x)
    {
      hide Status;
      forall x: nat | InTree(order, x) && StrictlyBelow(p, x)
        ensures Status(order, before, x) == Status(order, after, x)
      {
        AncDepth(p, x);
        if IsAnc(x, p) { AncDepth(x, p); }
        StatusDifferAt(order, before, after, p, x);
      }
    }

    /** `buddy_tree_mark`: the set of marked nodes grows by the node, wherever the update stops. */
    method Mark(pos: Pos)
      requires Valid() && Names(order, pos) && Free(marked, pos.index)
      modifies this, bits
      ensures Valid() && marked == old(marked) + {pos.index}
    {
      hide Packs, Loc, Repaired, CarriedIn;
      ghost var before, after, was := marked, marked + {pos.index}, status;
      FreeIsZero(order, marked, pos.index);
      var loc, width := InternalPosition(pos);
      StatusLength();
      WriteAt(loc, width, width, pos.index);
      StartCarry(was, before, after, pos.index, width);
      UpdateParentChain(pos, loc, width, width, before, after, was);
      AllRight(was, before, after, pos.index);
      marked := after;
    }

    lemma StatusLength()
      requires Packed()
      ensures |status| == Pow2(order) && forall x: nat :: InTree(order, x) ==> x < |status|
    {
    }

    /**
      `buddy_tree_release`: a full position is released.  If it is allocated itself, it leaves
      the set of allocated nodes.  If it is full because its halves are, it reads as free
      afterwards while its halves still read as allocated, which is so for no set of nodes.
     */
    method ReleaseNode(pos: Pos) returns (r: Release)
      requires Valid() && Names(order, pos)
      modifies this, bits
      ensures r.Success? <==> old(Covered(order, marked, pos.index))
      ensures marked == old(marked) - {pos.index}
      ensures r.FailPartiallyUsed? || pos.index in old(marked) ==> Valid()
      ensures r.Success? && pos.index !in old(marked) ==>
                && Packed() && |status| == Pow2(order)
                && (forall x: nat :: InTree(order, x) ==>
                      x < |status| && status[x] == Torn(order, marked, pos.index, x))
                && forall other: set<nat> :: Legal(order, other) ==>
                      exists x: nat :: InTree(order, x) && status[x] != Status(order, other, x)
    {
      hide Packs, Loc, Repaired, CarriedIn, Covered, Status, Legal, DifferBelow, DifferAt, IsAnc, Width, Valid, Torn,
          Pruned;
      StatusOf(pos.index);
      FullIff(order, marked, pos.index);
      assert InTree(order, pos.index);
      ghost var before, was := marked, status;
      ghost var after := if pos.index in marked then marked - {pos.index} else Pruned(marked, pos.index);
      var loc, width := InternalPosition(pos);
      var v := ReadAt(loc, width, pos.index);
      if v != width {
        NotMarkedHere(order, marked, pos.index);
        return FailPartiallyUsed;
      }
      assert Packed();
      if pos.index in marked {
        ReleasedIsZero(order, marked, pos.index);
      } else {
        TornStart(order, marked, pos.index);
      }
      marked := marked - {pos.index};
      ClearAt(pos, loc, width, before, after);
      Cleared(before, was, pos.index, after);
      return Success;
    }

    lemma Cleared(before: set<nat>, was: seq<nat>, p: nat, after: set<nat>)
      requires InTree(order, p) && Packed() && Repaired(after, p, was) && Legal(order, before)
      requires Covered(order, before, p)
      requires after == (if p in before then before - {p} else Pruned(before, p)) && marked == before - {p}
      requires forall x: nat :: InTree(order, x) ==> x < |was| && was[x] == Status(order, before, x)
      ensures p in before ==> Valid()
      ensures p !in before ==>
                && marked == before && |status| == Pow2(order)
                && (forall x: nat :: InTree(order, x) ==> x < |status| && status[x] == Torn(order, before, p, x))
                && forall other: set<nat> :: Legal(order, other) ==>
                      exists x: nat :: InTree(order, x) && status[x] != Status(order, other, x)
    {
      hide Packs, Repaired, Status, Covered, Pruned, IsAnc;
      StatusLength();
      if p in before {
        LegalRemove(order, before, p);
        AllRight(was, before, after, p);
      } else {
        IsTorn(was, before, p);
      }
    }

    lemma StatusOf(x: nat)
      requires Valid() && InTree(order, x)
      ensures Packed() && Legal(order, marked) && x < |status| && status[x] == Status(order, marked, x)
      ensures forall y: nat :: InTree(order, y) ==> y < |status| && status[y] == Status(order, marked, y)
    {
      hide Status;
      StatusLength();
    }

    static lemma NotMarkedHere(n: nat, marked: set<nat>, x: nat)
      requires InTree(n, x) && !Covered(n, marked, x)
      ensures marked - {x} == marked
    {
    }

    /** Writes zero at a node and repairs its ancestors. */
    method ClearAt(pos: Pos, loc: nat, width: nat, ghost before: set<nat>, ghost after: set<nat>)
      requires Packed() && Names(order, pos) && loc == Loc(order, pos.index) && width == Width(order, pos.index)
      requires forall x: nat :: InTree(order, x) ==> x < |status| && status[x] == Status(order, before, x)
      requires DifferBelow(before, after, pos.index) && Status(order, after, pos.index) == 0
      requires forall m :: m in after && m != pos.index ==> m >= 1 && !IsAnc(m, pos.index)
      modifies this`status, bits
      ensures Packed() && Repaired(after, pos.index, old(status))
    {
      hide Packs, Loc, Repaired, CarriedIn, Status;
      ghost var was := status;
      StatusLength();
      WriteAt(loc, width, 0, pos.index);
      StartCarry(was, before, after, pos.index, 0);
      UpdateParentChain(pos, loc, width, 0, before, after, was);
    }

    static lemma TornStart(n: nat, marked: set<nat>, p: nat)
      requires Legal(n, marked) && InTree(n, p) && p !in marked && Covered(n, marked, p)
      ensures Status(n, Pruned(marked, p), p) == 0 && DifferBelow(marked, Pruned(marked, p), p)
      ensures forall m :: m in Pruned(marked, p) ==> m >= 1 && !IsAnc(m, p)
    {
      hide Status;
      PrunedLegal(n, marked, p);
      forall m | m in Pruned(marked, p) ensures m >= 1 && !IsAnc(m, p) {
        if IsAnc(m, p) {
          FullIff(n, marked, p);
          BelowMarked(n, marked, m, p);
          WidthPositive(n, p);
        }
      }
    }

    /** After a torn release the stored numbers are not those of the allocated set, nor of any other. */
    lemma IsTorn(was: seq<nat>, before: set<nat>, p: nat)
      requires InTree(order, p) && Repaired(Pruned(before, p), p, was)
      requires forall x: nat :: InTree(order, x) ==> x < |was| && was[x] == Status(order, before, x)
      requires Legal(order, before) && Covered(order, before, p) && p !in before
      ensures forall x: nat :: InTree(order, x) ==> x < |status| && status[x] == Torn(order, before, p, x)
      ensures forall other: set<nat> :: Legal(order, other) ==>
              exists x: nat :: InTree(order, x) && status[x] != Status(order, other, x)
    {
      hide Status, Covered;
      forall other: set<nat> | Legal(order, other)
        ensures exists x: nat :: InTree(order, x) && status[x] != Status(order, other, x)
      {
        TornIsNoTree(order, before, p, other);
        var x: nat :| InTree(order, x) && Status(order, other, x) != Torn(order, before, p, x);
        assert status[x] == Torn(order, before, p, x);
      }
    }

    static lemma ReleasedIsZero(n: nat, marked: set<nat>, p: nat)
      requires Legal(n, marked) && p in marked
      ensures Legal(n, marked - {p}) && Status(n, marked - {p}, p) == 0
      ensures forall m :: m in marked && m != p ==> m >= 1 && !IsAnc(m, p)
      ensures DifferBelow(marked, marked - {p}, p) && DifferAt(marked, marked - {p}, p)
    {
      LegalRemove(n, marked, p);
      ZeroIsClear(n, marked - {p}, p);
    }

    /**
      `buddy_tree_find_free`: a position of the target depth with nothing allocated above, at
      or below it; the invalid position exactly when there is none.
     */
    method FindFree(targetDepth: nat) returns (pos: Pos)
      requires Valid() && 1 <= targetDepth <= order
      ensures pos == INVALID_POS || (Names(order, pos) && pos.depth == targetDepth && Free(marked, pos.index))
      ensures pos == INVALID_POS <==> !exists y: nat :: y >= 1 && Depth(y) == targetDepth && Free(marked, y)
      ensures pos != INVALID_POS ==> Reached(order, marked, pos.index, targetDepth)
    {
      hide Packs, Loc, Status, Reached, OnPath;
      RootStatusMeaning(order, marked, targetDepth);
      pos := Pos(1, 1);
      var targetStatus := targetDepth - 1;
      var rootStatus := StatusAt(pos);
      if rootStatus > targetStatus {
        return INVALID_POS;
      }
      NotMarked(order, marked, 1, targetStatus);
      AtRoot(order, marked, targetDepth);
      while pos.depth != targetDepth
        invariant Names(order, pos) && pos.depth <= targetDepth && targetStatus == targetDepth - pos.depth
        invariant Status(order, marked, pos.index) <= targetStatus
        invariant forall m :: m in marked ==> m >= 1 && !IsAnc(m, pos.index)
        invariant Reached(order, marked, pos.index, targetDepth)
        decreases targetDepth - pos.depth
      {
        targetStatus := targetStatus - 1;
        var next := PickChild(pos, targetStatus);
        NotMarked(order, marked, next.index, targetStatus);
        StepDown(order, marked, pos.index, next.index, targetDepth);
        pos := next;
      }
      ZeroIsClear(order, marked, pos.index);
    }

    /** One descent of the search: a child that still has room at the target level. */
    method PickChild(pos: Pos, targetStatus: nat) returns (next: Pos)
      requires Valid() && Names(order, pos) && pos.depth + 1 + targetStatus <= order && pos.index !in marked
      requires Status(order, marked, pos.index) <= targetStatus + 1
      ensures Names(order, next) && next.index / 2 == pos.index && next.index > 1 && next.depth == pos.depth + 1
      ensures Status(order, marked, next.index) <= targetStatus
      ensures OnPath(order, marked, next.index, next.depth + targetStatus)
    {
      hide Packs, Loc, Status, IsAnc;
      Children(pos.index);
      StatusOfParent(order, marked, pos.index);
      var left, right := Pos(2 * pos.index, pos.depth + 1), Pos(2 * pos.index + 1, pos.depth + 1);
      var leftLoc, width := InternalPosition(left);
      SiblingLoc(order, left.index);
      var rightLoc := leftLoc + width;
      var leftBusy := CompareAt(leftLoc, targetStatus + 1, left.index);
      if leftBusy {
        return right;
      }
      var rightBusy := CompareAt(rightLoc, targetStatus + 1, right.index);
      if rightBusy {
        return left;
      }
      var rightStatus := ReadAt(rightLoc, width, right.index);
      if rightStatus == 0 {
        return left;
      }
      var preferLeft := CompareAt(leftLoc, rightStatus, left.index);
      return if preferLeft then left else right;
    }

    /** A node with room at some level below it is not itself allocated. */
    static lemma NotMarked(n: nat, marked: set<nat>, x: nat, s: nat)
      requires Legal(n, marked) && InTree(n, x) && Status(n, marked, x) <= s && Depth(x) + s <= n
      requires x > 1 ==> forall m :: m in marked ==> m >= 1 && !IsAnc(m, x / 2)
      ensures forall m :: m in marked ==> m >= 1 && !IsAnc(m, x)
    {
    }

    /**
      `buddy_tree_walk`: the next node in depth-first order, below the current one or, when
      `goingUp` is set, past it; `more` is false once the walk is back at the root.
     */
    method Walk(current: Pos, goingUp: bool) returns (next: Pos, more: bool)
      requires Valid() && Names(order, current)
      ensures !goingUp && current.depth < order ==> more && next == Pos(2 * current.index, current.depth + 1)
      ensures goingUp || current.depth == order ==>
                (more <==> NextAfter(current.index) != 0) && (more ==> next.index == NextAfter(current.index))
      ensures more ==> Names(order, next)
    {
      hide Packs, Status, IsAnc;
      var up := goingUp;
      more, next := true, current;
      if !up {
        var left := Pos(2 * next.index, next.depth + 1);
        Children(next.index);
        InTreeBound(order, left.index);
        if left.index < Pow2(order) {
          return left, true;
        }
        up := true;
      }
      while up
        invariant Names(order, next)
        invariant up ==> more && NextAfter(next.index) == NextAfter(current.index)
        invariant !up ==> (more <==> NextAfter(current.index) != 0) && (more ==> next.index == NextAfter(current.index))
        decreases up, next.index
      {
        if next.index == 1 {
          more, up := false, false;
        } else if next.index % 2 == 1 {
          next := Pos(next.index / 2, next.depth - 1);
        } else {
          Children(next.index / 2);
          next, up := Pos(next.index + 1, next.depth), false;
        }
      }
    }
  }

  /** The tree depends on the set of allocated nodes only, not on the order in which it came about. */
  lemma SameMarkedSameBits(a: Tree, b: Tree, x: nat, p: nat)
    requires a.Valid() && b.Valid() && a.order == b.order && a.marked == b.marked
    requires InTree(a.order, x) && Loc(a.order, x) <= p < Loc(a.order, x) + Width(a.order, x)
    ensures p < 8 * a.bits.Length && p < 8 * b.bits.Length
    ensures Bitset.Test(a.bits[..], p) == Bitset.Test(b.bits[..], p)
  {
    hide Loc, TotalBits, Bitset.Test, Status;
    LocWithinLevel(a.order, x);
    assert Field(a.order, a.bits[..], x, a.status[x]);
    assert Field(b.order, b.bits[..], x, b.status[x]);
  }

  /** The node that follows `x` and everything below it in depth-first order; 0 at the end. */
  function NextAfter(x: nat): nat
    requires x >= 1
  {
    if x == 1 then 0 else if x % 2 == 0 then x + 1 else NextAfter(x / 2)
  }

  /** The leaves that a traversal counts as free at or below `x`. */
  function FreeLeaves(n: nat, marked: set<nat>, x: nat): nat
    requires InTree(n, x)
    decreases n - Depth(x)
  {
    var s := Status(n, marked, x);
    if s == Width(n, x) then 0
    else if s == 0 then Leaves(n, x)
    else if Depth(x) == n then 0
    else Children(x); FreeLeaves(n, marked, 2 * x) + FreeLeaves(n, marked, 2 * x + 1)
  }

  /** What is left to count after `x`: the right siblings of `x` and of its ancestors. */
  ghost function RestFree(n: nat, marked: set<nat>, x: nat): nat
    requires InTree(n, x)
  {
    if x == 1 then 0
    else if x % 2 == 0 then Children(x / 2); FreeLeaves(n, marked, x + 1) + RestFree(n, marked, x / 2)
    else RestFree(n, marked, x / 2)
  }

  lemma LeavesOfRoot(n: nat)
    requires n >= 1
    ensures First(n, 1) == 0 && Leaves(n, 1) == Pow2(n - 1)
  {
    assert Row(1) == 0;
  }

  lemma InRange(n: nat, x: nat)
    requires InTree(n, x)
    ensures First(n, x) + Leaves(n, x) <= Pow2(n - 1)
  {
    LeavesOfRoot(n);
    RootAnc(x);
    AncContains(n, 1, x);
  }

  lemma FreeLeavesDef(n: nat, marked: set<nat>, x: nat)
    requires InTree(n, x)
    ensures Status(n, marked, x) == Width(n, x) ==> FreeLeaves(n, marked, x) == 0
    ensures Status(n, marked, x) == 0 ==> FreeLeaves(n, marked, x) == Leaves(n, x)
    ensures 0 < Status(n, marked, x) < Width(n, x) ==>
              && Depth(x) < n && InTree(n, 2 * x) && InTree(n, 2 * x + 1)
              && FreeLeaves(n, marked, x) + RestFree(n, marked, x) == FreeLeaves(n, marked, 2 * x) +
                    RestFree(n, marked, 2 * x)
              && First(n, 2 * x) == First(n, x)
  {
    hide Status, Leaves, First;
    Children(x);
    if Depth(x) < n {
      LeavesSplit(n, x);
      RestOfLeft(n, marked, x);
    }
  }

  lemma RestOfLeft(n: nat, marked: set<nat>, x: nat)
    requires InTree(n, x) && Depth(x) < n
    ensures InTree(n, 2 * x) && InTree(n, 2 * x + 1)
    ensures RestFree(n, marked, 2 * x) == FreeLeaves(n, marked, 2 * x + 1) + RestFree(n, marked, x)
  {
    hide FreeLeaves;
    Children(x);
    assert 2 * x / 2 == x;
  }

  /** The node met next takes over exactly what was left, and starts where `x` ends. */
  lemma {:induction false} NextRest(n: nat, marked: set<nat>, x: nat)
    requires InTree(n, x)
    ensures var y := NextAfter(x);
            if y == 0 then RestFree(n, marked, x) == 0
            else InTree(n, y) && RestFree(n, marked, x) == FreeLeaves(n, marked, y) + RestFree(n, marked, y)
                 && First(n, y) == First(n, x) + Leaves(n, x)
  {
    if x > 1 {
      Children(x / 2);
      LeavesSplit(n, x / 2);
      if x % 2 == 1 { NextRest(n, marked, x / 2); }
    }
  }
}
