/**
  Searching and merging the ID lists of LMDB.  A list has its length in slot 0 and its IDs, in
  descending order, in slots 1..n.
 */
module MidlLists {

  const ID_MAX := 0xFFFF_FFFF_FFFF_FFFF

  predicate Descending(s: seq<nat>) { forall x, y :: 0 <= x < y < |s| ==> s[x] >= s[y] }

  /**
    `mdb_midl_search`: a position of `id`, or, if it is not there, the position of the first ID
    that is smaller, one past the end if there is none.
   */
  method Search(ids: array<nat>, id: nat) returns (p: nat)
    requires ids.Length > 0 && ids[0] < ids.Length && Descending(ids[1..ids[0] + 1])
    ensures 1 <= p <= ids[0] + 1
    ensures id in ids[1..ids[0] + 1] ==> p <= ids[0] && ids[p] == id
    ensures id !in ids[1..ids[0] + 1] ==>
            (forall q :: 1 <= q < p ==> ids[q] > id) && (forall q :: p <= q <= ids[0] ==> ids[q] < id)
  {
    ghost var list := ids[1..ids[0] + 1];
    assert forall q :: 1 <= q <= ids[0] ==> ids[q] == list[q - 1];
    var base: nat, cursor: nat, val, n: nat := 0, 1, 0, ids[0];
    while n > 0
      invariant base + n <= ids[0]
      invariant forall q :: 1 <= q <= base ==> ids[q] > id
      invariant forall q :: base + n < q <= ids[0] ==> ids[q] < id
      invariant if val < 0 then cursor == base + n + 1 else if val > 0 then cursor == base
              else cursor == 1 && base == 0 && n == ids[0]
    {
      var pivot := n / 2;
      cursor := base + pivot + 1;
      val := if ids[cursor] < id then -1 else if ids[cursor] > id then 1 else 0;
      assert forall q :: 1 <= q < cursor ==> ids[q] >= ids[cursor] by { Order(list, cursor); }
      assert forall q :: cursor < q <= ids[0] ==> ids[q] <= ids[cursor] by { Order(list, cursor); }
      if val < 0 {
        n := pivot;
      } else if val > 0 {
        base := cursor;
        n := n - (pivot + 1);
      } else {
        return cursor;
      }
    }
    p := if val > 0 then cursor + 1 else cursor;
  }

  lemma Order(list: seq<nat>, c: nat)
    requires Descending(list) && 1 <= c <= |list|
    ensures forall x :: 0 <= x < c ==> list[x] >= list[c - 1]
    ensures forall x :: c <= x < |list| ==> list[x] <= list[c - 1]
  {
  }

  /** The merge has placed all but the first `j` IDs of `xs` and the first `i` of `ys`, from the end. */
  ghost predicate Placed(a: seq<nat>, xs: seq<nat>, ys: seq<nat>, j: nat, i: nat)
  {
    && |xs| + |ys| < |a| && j <= |xs| && i <= |ys|
    && StillThere(a, xs, j)
    && HasBag(a, i + j + 1, |xs| + |ys|, Rests(xs, ys, j, i))
    && (Descending(xs) && Descending(ys) ==> InOrder(a, xs[..j], ys[..i], i + j + 1, |xs| + |ys|))
  }

  ghost predicate StillThere(a: seq<nat>, xs: seq<nat>, j: nat)
    requires j < |a| && j <= |xs|
  {
    a[1..j + 1] == xs[..j]
  }

  ghost predicate HasBag(a: seq<nat>, lo: nat, hi: nat, bag: multiset<nat>)
    requires lo <= hi + 1 <= |a|
  {
    multiset(a[lo..hi + 1]) == bag
  }

  function Rests(xs: seq<nat>, ys: seq<nat>, j: nat, i: nat): multiset<nat>
    requires j <= |xs| && i <= |ys|
  {
    multiset(xs[j..]) + multiset(ys[i..])
  }

  /** The slots `lo..hi` are in order, and no ID of `s` or `t` is smaller than one of them. */
  ghost predicate InOrder(a: seq<nat>, s: seq<nat>, t: seq<nat>, lo: nat, hi: nat)
    requires hi < |a|
  {
    && (forall x, y :: lo <= x < y <= hi ==> a[x] >= a[y])
    && (forall x, y :: 0 <= x < |s| && lo <= y <= hi ==> s[x] >= a[y])
    && (forall x, y :: 0 <= x < |t| && lo <= y <= hi ==> t[x] >= a[y])
  }

  /** The last ID of `s` goes in front of the placed ones, if none of `t` is smaller. */
  lemma PutFirst(a: seq<nat>, s: seq<nat>, t: seq<nat>, k: nat, hi: nat)
    requires k <= hi < |a| && s != [] && InOrder(a, s, t, k + 1, hi) && Descending(s)
    requires forall x :: 0 <= x < |t| ==> t[x] >= s[|s| - 1]
    ensures InOrder(a[k := s[|s| - 1]], s[..|s| - 1], t, k, hi)
  {
  }

  lemma FrontBag(a: seq<nat>, k: nat, hi: nat, v: nat, bag: multiset<nat>)
    requires k <= hi < |a| && HasBag(a, k + 1, hi, bag)
    ensures HasBag(a[k := v], k, hi, multiset{v} + bag)
  {
    assert a[k := v][k..hi + 1] == [v] + a[k + 1..hi + 1];
  }

  lemma KeptFront(a: seq<nat>, s: seq<nat>, k: nat, j: nat, v: nat)
    requires j < k < |a| && j <= |s| && (StillThere(a, s, j) || (j < |s| && StillThere(a, s, j + 1)))
    ensures StillThere(a[k := v], s, j)
  {
    var b := a[k := v];
    forall x | 0 <= x < j ensures b[1..j + 1][x] == s[..j][x] {
      assert b[x + 1] == a[x + 1];
      if a[1..j + 1] != s[..j] { assert a[1..j + 2][x] == s[..j + 1][x]; } else { assert a[1..j + 1][x] == s[..j][x]; }
    }
  }

  lemma TailBag(s: seq<nat>, j: nat)
    requires 0 < j <= |s|
    ensures multiset(s[j - 1..]) == multiset{s[j - 1]} + multiset(s[j..])
  {
    assert s[j - 1..] == [s[j - 1]] + s[j..];
  }

  /** The unplaced rests grow by the ID that is placed. */
  lemma RestsOld(xs: seq<nat>, ys: seq<nat>, j: nat, i: nat)
    requires 0 < j <= |xs| && i <= |ys|
    ensures multiset{xs[j - 1]} + Rests(xs, ys, j, i) == Rests(xs, ys, j - 1, i)
  {
    TailBag(xs, j);
  }

  lemma RestsNew(xs: seq<nat>, ys: seq<nat>, j: nat, i: nat)
    requires j <= |xs| && 0 < i <= |ys|
    ensures multiset{ys[i - 1]} + Rests(xs, ys, j, i) == Rests(xs, ys, j, i - 1)
  {
    TailBag(ys, i);
  }

  lemma LastIsLeast(s: seq<nat>, n: nat)
    requires Descending(s) && 0 < n <= |s|
    ensures Descending(s[..n]) && s[..n][..n - 1] == s[..n - 1] && forall x :: 0 <= x < n ==> s[..n][x] >= s[n - 1]
  {
  }

  lemma PlaceOld(a: seq<nat>, xs: seq<nat>, ys: seq<nat>, j: nat, i: nat)
    requires Placed(a, xs, ys, j, i) && j > 0 && i > 0 && xs[j - 1] < ys[i - 1]
    ensures Placed(a[i + j := xs[j - 1]], xs, ys, j - 1, i)
  {
    hide Rests, InOrder, Descending, HasBag, StillThere;
    FrontBag(a, i + j, |xs| + |ys|, xs[j - 1], Rests(xs, ys, j, i));
    RestsOld(xs, ys, j, i);
    KeptFront(a, xs, i + j, j - 1, xs[j - 1]);
    if Descending(xs) && Descending(ys) {
      LastIsLeast(xs, j);
      LastIsLeast(ys, i);
      PutFirst(a, xs[..j], ys[..i], i + j, |xs| + |ys|);
    }
  }

  lemma PlaceNew(a: seq<nat>, xs: seq<nat>, ys: seq<nat>, j: nat, i: nat)
    requires Placed(a, xs, ys, j, i) && i > 0 && (j > 0 ==> xs[j - 1] >= ys[i - 1])
    ensures Placed(a[i + j := ys[i - 1]], xs, ys, j, i - 1)
  {
    hide Rests, InOrder, Descending, HasBag, StillThere;
    FrontBag(a, i + j, |xs| + |ys|, ys[i - 1], Rests(xs, ys, j, i));
    RestsNew(xs, ys, j, i);
    KeptFront(a, xs, i + j, j, ys[i - 1]);
    if Descending(xs) && Descending(ys) { PlaceNewOrder(a, xs, ys, j, i, i + j, |xs| + |ys|); }
  }

  lemma PlaceNewOrder(a: seq<nat>, xs: seq<nat>, ys: seq<nat>, j: nat, i: nat, k: nat, hi: nat)
    requires j <= |xs| && 0 < i <= |ys| && k <= hi < |a| && (j > 0 ==> xs[j - 1] >= ys[i - 1])
    requires Descending(xs) && Descending(ys) && InOrder(a, xs[..j], ys[..i], k + 1, hi)
    ensures InOrder(a[k := ys[i - 1]], xs[..j], ys[..i - 1], k, hi)
  {
    hide InOrder, Descending;
    LastIsLeast(ys, i);
    if j > 0 { LastIsLeast(xs, j); }
    TurnOrder(a, xs[..j], ys[..i], k + 1, hi);
    PutFirst(a, ys[..i], xs[..j], k, hi);
    TurnOrder(a[k := ys[i - 1]], ys[..i - 1], xs[..j], k, hi);
  }

  lemma TurnOrder(a: seq<nat>, s: seq<nat>, t: seq<nat>, lo: nat, hi: nat)
    requires hi < |a| && InOrder(a, s, t, lo, hi)
    ensures InOrder(a, t, s, lo, hi)
  {
  }

  /** `mdb_midl_xmerge`: merges from the end, in place, with slot 0 as a sentinel during the scan. */
  method MergeInPlace(idl: array<nat>, merge: seq<nat>)
    requires idl.Length > 0 && |merge| > 0 && merge[0] < |merge| && idl[0] + merge[0] < idl.Length
    requires forall x :: 1 <= x <= merge[0] ==> merge[x] <= ID_MAX
    modifies idl
    ensures var n, m := old(idl[0]), merge[0];
            && idl[0] == n + m
            && multiset(idl[1..n + m + 1]) == multiset(old(idl[1..n + 1])) + multiset(merge[1..m + 1])
            && (old(Descending(idl[1..n + 1])) && Descending(merge[1..m + 1]) ==> Descending(idl[1..n + m + 1]))
            && idl[n + m + 1..] == old(idl[n + m + 1..])
  {
    hide Placed;
    var i: nat, j: nat := merge[0], idl[0];
    var k, total := i + j, i + j;
    ghost var was, xs, ys := idl[..], idl[1..j + 1], merge[1..i + 1];
    idl[0] := ID_MAX;
    PlaceNone(idl[..], xs, ys);
    var oldId := idl[j];
    while i > 0
      invariant k == i + j && j <= |xs| && i <= |ys| && Placed(idl[..], xs, ys, j, i)
      invariant idl[0] == ID_MAX && oldId == idl[j] && idl[total + 1..] == was[total + 1..]
    {
      var mergeId := merge[i];
      while oldId < mergeId
        invariant k == i + j && j <= |xs| && Placed(idl[..], xs, ys, j, i)
        invariant idl[0] == ID_MAX && oldId == idl[j] && idl[total + 1..] == was[total + 1..]
        decreases j
      {
        OldAt(idl[..], xs, ys, j, i);
        PlaceOld(idl[..], xs, ys, j, i);
        ghost var before := idl[..];
        idl[k] := oldId;
        assert idl[..] == before[i + j := xs[j - 1]];
        assert idl[total + 1..] == before[total + 1..];
        k, j := k - 1, j - 1;
        oldId := idl[j];
      }
      OldAt(idl[..], xs, ys, j, i);
      PlaceNew(idl[..], xs, ys, j, i);
      ghost var before := idl[..];
      idl[k] := mergeId;
      assert idl[..] == before[i + j := ys[i - 1]];
      assert idl[total + 1..] == before[total + 1..];
      k, i := k - 1, i - 1;
    }
    ghost var a := idl[..];
    idl[0] := total;
    AllPlaced(a, xs, ys, j);
    assert idl[1..total + 1] == a[1..total + 1];
    assert idl[total + 1..] == a[total + 1..] == was[total + 1..];
  }

  lemma PlaceNone(a: seq<nat>, xs: seq<nat>, ys: seq<nat>)
    requires |xs| + |ys| < |a| && a[1..|xs| + 1] == xs
    ensures Placed(a, xs, ys, |xs|, |ys|)
  {
    assert xs[..|xs|] == xs;
    assert a[|xs| + |ys| + 1..|xs| + |ys| + 1] == [];
    assert xs[|xs|..] == [] && ys[|ys|..] == [];
  }

  lemma OldAt(a: seq<nat>, xs: seq<nat>, ys: seq<nat>, j: nat, i: nat)
    requires Placed(a, xs, ys, j, i)
    ensures j > 0 ==> j <= |xs| && j < |a| && a[j] == xs[j - 1]
  {
    if j > 0 { assert a[j] == a[1..j + 1][j - 1]; }
  }

  /** When the second list is used up, the rest of the first one is already in place. */
  lemma AllPlaced(a: seq<nat>, xs: seq<nat>, ys: seq<nat>, j: nat)
    requires Placed(a, xs, ys, j, 0)
    ensures var total := |xs| + |ys|;
            && multiset(a[1..total + 1]) == multiset(xs) + multiset(ys)
            && (Descending(xs) && Descending(ys) ==> Descending(a[1..total + 1]))
  {
    var total := |xs| + |ys|;
    assert a[1..total + 1] == a[1..j + 1] + a[j + 1..total + 1];
    assert xs == xs[..j] + xs[j..];
    assert ys[0..] == ys;
    if Descending(xs) && Descending(ys) {
      var b := a[1..total + 1];
      forall x, y | 0 <= x < y < |b| ensures b[x] >= b[y] {
        if y < j { assert b[x] == xs[..j][x] && b[y] == xs[..j][y]; }
        else if x < j { assert b[x] == xs[..j][x] && b[y] == a[y + 1]; }
        else { assert b[x] == a[j + 1..total + 1][x - j] && b[y] == a[j + 1..total + 1][y - j]; }
      }
    }
  }
}
