/**
  The ID-list sort of LMDB: quicksort with a median of three, sentinel scans and an explicit
  stack, and an insertion sort for short ranges that may look below its own range.

  A list of `n` IDs has its length in slot 0 and its IDs in slots 1..n; it is sorted in
  descending order.
 */
module MidlSort {
  import opened Basics
  import opened TreeShape

  const SMALL := 8
  const INT_MAX := 0x7FFF_FFFF
  const STACK_SIZE := 64

  /** `t` is `s` with the slots `l..r` permuted and all others as they were. */
  ghost predicate Permuted(s: seq<nat>, t: seq<nat>, l: nat, r: nat)
  {
    && |s| == |t| && l <= r + 1 <= |s|
    && s[..l] == t[..l] && s[r + 1..] == t[r + 1..]
    && multiset(s[l..r + 1]) == multiset(t[l..r + 1])
  }

  /** Position `p` splits the list: nothing before it is smaller than anything from it on. */
  ghost predicate Cut(s: seq<nat>, n: nat, p: nat)
    requires n < |s|
  {
    forall x, y :: 1 <= x < p <= y <= n ==> s[x] >= s[y]
  }

  lemma PermutedRefl(s: seq<nat>, l: nat, r: nat)
    requires l <= r + 1 <= |s|
    ensures Permuted(s, s, l, r)
  {
  }

  lemma PermutedTrans(s: seq<nat>, t: seq<nat>, u: seq<nat>, l: nat, r: nat)
    requires Permuted(s, t, l, r) && Permuted(t, u, l, r)
    ensures Permuted(s, u, l, r)
  {
  }

  function Swapped(s: seq<nat>, i: nat, j: nat): seq<nat>
    requires i < |s| && j < |s|
  {
    s[i := s[j]][j := s[i]]
  }

  lemma SwapPermutes(s: seq<nat>, l: nat, r: nat, i: nat, j: nat)
    requires l <= i <= r < |s| && l <= j <= r
    ensures Permuted(s, Swapped(s, i, j), l, r)
  {
    SwappedParts(s, l, r, i, j);
    hide Swapped;
    SwapMultiset(s[l..r + 1], i - l, j - l);
  }

  lemma SwappedParts(s: seq<nat>, l: nat, r: nat, i: nat, j: nat)
    requires l <= i <= r < |s| && l <= j <= r
    ensures var t := Swapped(s, i, j);
            |t| == |s| && t[..l] == s[..l] && t[r + 1..] == s[r + 1..] &&
                t[l..r + 1] == Swapped(s[l..r + 1], i - l, j - l)
  {
    var t, u := Swapped(s, i, j), Swapped(s[l..r + 1], i - l, j - l);
    forall k | 0 <= k < |u| ensures t[l..r + 1][k] == u[k] {
      assert t[l..r + 1][k] == t[l + k];
    }
  }

  lemma SwapMultiset(s: seq<nat>, i: nat, j: nat)
    requires i < |s| && j < |s|
    ensures multiset(Swapped(s, i, j)) == multiset(s)
  {
  }

  /** What a permutation of a range leaves between the range's bounds. */
  lemma PermutedFrom(s: seq<nat>, t: seq<nat>, l: nat, r: nat, y: nat) returns (x: nat)
    requires Permuted(s, t, l, r) && l <= y <= r
    ensures l <= x <= r && t[y] == s[x]
  {
    assert t[y] == t[l..r + 1][y - l];
    assert t[y] in multiset(t[l..r + 1]);
    assert t[y] in s[l..r + 1];
    var k :| 0 <= k < |s[l..r + 1]| && s[l..r + 1][k] == t[y];
    x := l + k;
  }

  lemma PermutedOutside(s: seq<nat>, t: seq<nat>, l: nat, r: nat, y: nat)
    requires Permuted(s, t, l, r) && y < |s| && (y < l || y > r)
    ensures t[y] == s[y]
  {
    if y < l { assert s[y] == s[..l][y]; } else { assert s[y] == s[r + 1..][y - r - 1]; }
  }

  /** A cut at or outside the bounds of a range survives a permutation of the range. */
  lemma CutKept(s: seq<nat>, t: seq<nat>, n: nat, l: nat, r: nat, p: nat)
    requires n < |s| && Permuted(s, t, l, r) && 1 <= l <= r <= n && (p <= l || p > r) && Cut(s, n, p)
    ensures Cut(t, n, p)
  {
    assert |s| == |t|;
    hide Permuted;
    forall x: nat, y: nat | 1 <= x < p <= y <= n ensures t[x] >= t[y] {
      var x', y' := x, y;
      if l <= x <= r { x' := PermutedFrom(s, t, l, r, x); } else { PermutedOutside(s, t, l, r, x); }
      if l <= y <= r { y' := PermutedFrom(s, t, l, r, y); } else { PermutedOutside(s, t, l, r, y); }
      assert s[x'] >= s[y'];
    }
  }

  /** Within a range between two cuts, a local split is a cut. */
  lemma CutInside(s: seq<nat>, n: nat, l: nat, r: nat, p: nat)
    requires n < |s| && 1 <= l <= p <= r + 1 <= n + 1 && Cut(s, n, l) && Cut(s, n, r + 1)
    requires forall x, y :: l <= x < p <= y <= r ==> s[x] >= s[y]
    ensures Cut(s, n, p)
  {
  }

  method Swap(a: array<nat>, ghost l: nat, ghost r: nat, i: nat, j: nat)
    requires l <= i <= r < a.Length && l <= j <= r
    modifies a
    ensures a[..] == Swapped(old(a[..]), i, j)
    ensures Permuted(old(a[..]), a[..], l, r)
  {
    SwapPermutes(a[..], l, r, i, j);
    a[i], a[j] := a[j], a[i];
  }

  /** The median of three: the pivot goes to `l + 1`, with sentinels at `l` and `r`. */
  method MedianOfThree(a: array<nat>, l: nat, r: nat, k: nat)
    requires l + 1 < r < a.Length && l < k < r
    modifies a
    ensures Permuted(old(a[..]), a[..], l, r)
    ensures a[l] >= a[l + 1] >= a[r]
    ensures old(a[l]) >= old(a[k]) >= old(a[r]) && k > l + 1 ==> a[..] == Swapped(old(a[..]), k, l + 1)
  {
    hide Permuted, Swapped;
    ghost var s0 := a[..];
    Swap(a, l, r, k, l + 1);
    ghost var s1 := a[..];
    SwappedThree(s0, l, r, k);
    OrderPair(a, l, r, l, r);
    ghost var s2 := a[..];
    PermutedTrans(s0, s1, s2, l, r);
    OrderPair(a, l, r, l + 1, r);
    ghost var s3 := a[..];
    PermutedTrans(s0, s2, s3, l, r);
    OrderPair(a, l, r, l, l + 1);
    PermutedTrans(s0, s3, a[..], l, r);
  }

  /** A comparison that swaps two slots if they are out of order. */
  method OrderPair(a: array<nat>, ghost l: nat, ghost r: nat, i: nat, j: nat)
    requires l <= i < j <= r < a.Length
    modifies a
    ensures Permuted(old(a[..]), a[..], l, r)
    ensures a[i] == if old(a[i]) < old(a[j]) then old(a[j]) else old(a[i])
    ensures a[j] == if old(a[i]) < old(a[j]) then old(a[i]) else old(a[j])
    ensures forall x :: 0 <= x < a.Length && x != i && x != j ==> a[x] == old(a[x])
    ensures old(a[i]) >= old(a[j]) ==> a[..] == old(a[..])
  {
    PermutedRefl(a[..], l, r);
    if a[i] < a[j] {
      Swap(a, l, r, i, j);
    }
  }

  lemma SwappedThree(s: seq<nat>, l: nat, r: nat, k: nat)
    requires l + 1 < r < |s| && l < k < r
    ensures var t := Swapped(s, k, l + 1); |t| == |s| && t[l] == s[l] && t[r] == s[r] && t[l + 1] == s[k]
  {
  }

  /** `do i++; while (ids[i] > a)`: stopped by a sentinel at `stop`. */
  method ScanUp(a: array<nat>, i0: nat, pivot: nat, ghost stop: nat) returns (i: nat)
    requires i0 < stop < a.Length && a[stop] <= pivot
    ensures i0 < i <= stop && a[i] <= pivot
    ensures forall x :: i0 < x < i ==> a[x] > pivot
  {
    i := i0 + 1;
    while a[i] > pivot
      invariant i0 < i <= stop
      invariant forall x :: i0 < x < i ==> a[x] > pivot
      decreases stop - i
    {
      i := i + 1;
    }
  }

  /** `do j--; while (ids[j] < a)`: stopped by a sentinel at `stop`. */
  method ScanDown(a: array<nat>, j0: nat, pivot: nat, ghost stop: nat) returns (j: nat)
    requires stop < j0 <= a.Length && a[stop] >= pivot
    ensures stop <= j < j0 && a[j] >= pivot
    ensures forall x :: j < x < j0 ==> a[x] < pivot
  {
    j := j0 - 1;
    while a[j] < pivot
      invariant stop <= j < j0
      invariant forall x :: j < x < j0 ==> a[x] < pivot
      decreases j
    {
      j := j - 1;
    }
  }

  /** Slots before `k` hold more, slots from `k` on hold less than the pivot at `l + 1`. */
  ghost predicate SharpCut(s: seq<nat>, l: nat, r: nat, k: int)
  {
    && l + 1 < k <= r < |s|
    && (forall x :: l + 1 < x < k ==> s[x] > s[l + 1])
    && (forall x :: k <= x <= r ==> s[x] < s[l + 1])
  }

  /** The state of the two scans: `i` and `j` are done, the pivot waits at `l + 1`. */
  ghost predicate Scanned(s: seq<nat>, l: nat, r: nat, i: nat, j: nat)
  {
    && l + 1 <= i <= r < |s| && l + 1 <= j <= r
    && s[l] >= s[l + 1]
    && (forall x :: l + 1 < x <= i ==> s[x] >= s[l + 1])
    && (forall y :: j <= y <= r ==> s[y] <= s[l + 1])
  }

  /**
    The partition step.  The scans run without bounds checks and stay inside the range; slots
    before `j` hold no less, slots from `i` on no more than the pivot, which is at `j`.
   */
  method Partition(a: array<nat>, l: nat, r: nat) returns (i: nat, j: nat)
    requires l + 2 < r < a.Length && a[l] >= a[l + 1] >= a[r]
    modifies a
    ensures Permuted(old(a[..]), a[..], l, r)
    ensures l + 1 <= j < i <= r
    ensures forall x :: l <= x < j ==> a[x] >= a[j]
    ensures forall x :: j <= x < i ==> a[x] == a[j]
    ensures forall x :: i <= x <= r ==> a[x] <= a[j]
    ensures forall k :: SharpCut(old(a[..]), l, r, k) ==> i == k && j == k - 1
  {
    hide Permuted, Scanned, SharpCut;
    ghost var s0 := a[..];
    i, j := ScanLoop(a, l, r);
    ghost var s := a[..];
    Swap(a, l, r, l + 1, j);
    PermutedTrans(s0, s, a[..], l, r);
    PivotPlaced(s, l, r, i, j);
    hide Swapped;
  }

  /** Moving the pivot to where the downward scan stopped. */
  lemma PivotPlaced(s: seq<nat>, l: nat, r: nat, i: nat, j: nat)
    requires l + 1 <= j < i <= r < |s| && s[l] >= s[l + 1] && s[j] >= s[l + 1]
    requires forall x :: l + 1 < x < i ==> s[x] >= s[l + 1]
    requires forall y :: j < y <= r ==> s[y] <= s[l + 1]
    ensures var t := Swapped(s, l + 1, j);
            && |t| == |s| && (forall x :: l <= x < j ==> t[x] >= t[j])
            && (forall x :: j <= x < i ==> t[x] == t[j]) && (forall x :: i <= x <= r ==> t[x] <= t[j])
  {
  }

  /** The two scans until they cross; the pivot stays at `l + 1`. */
  method ScanLoop(a: array<nat>, l: nat, r: nat) returns (i: nat, j: nat)
    requires l + 2 < r < a.Length && a[l] >= a[l + 1] >= a[r]
    modifies a
    ensures Permuted(old(a[..]), a[..], l, r)
    ensures l + 1 <= j < i <= r && a[l] >= a[l + 1] && a[j] >= a[l + 1]
    ensures forall x :: l + 1 < x < i ==> a[x] >= a[l + 1]
    ensures forall y :: j < y <= r ==> a[y] <= a[l + 1]
    ensures forall k :: SharpCut(old(a[..]), l, r, k) ==> i == k && j == k - 1
  {
    hide Permuted, Scanned, SharpCut;
    ghost var s0 := a[..];
    PermutedRefl(s0, l, r);
    i, j := l + 1, r;
    StartScan(s0, l, r);
    var crossed := false;
    while !crossed
      invariant Permuted(s0, a[..], l, r)
      invariant !crossed ==> Scanned(a[..], l, r, i, j) && Apart(l, r, i, j)
      invariant crossed ==> l + 1 <= j < i <= r && a[l] >= a[l + 1] && a[j] >= a[l + 1]
      invariant crossed ==> forall x :: l + 1 < x < i ==> a[x] >= a[l + 1]
      invariant crossed ==> forall y :: j < y <= r ==> a[y] <= a[l + 1]
      invariant forall k :: SharpCut(s0, l, r, k) ==>
              if crossed then i == k && j == k - 1 else i == l + 1 && j == r && a[..] == s0
      decreases !crossed, j - i
    {
      ghost var s := a[..];
      i, j, crossed := ScanOnce(a, l, r, i, j);
      PermutedTrans(s0, s, a[..], l, r);
    }
  }

  /** Where the scans may stand between two turns. */
  predicate Apart(l: nat, r: nat, i: nat, j: nat)
  {
    l + 1 <= i <= j <= r && l + 2 < r && ((i == l + 1 && j == r) || (i > l + 1 && j < r))
  }

  method ScanOnce(a: array<nat>, l: nat, r: nat, i0: nat, j0: nat) returns (i: nat, j: nat, crossed: bool)
    requires Scanned(a[..], l, r, i0, j0) && Apart(l, r, i0, j0)
    modifies a
    ensures Permuted(old(a[..]), a[..], l, r)
    ensures i > i0 && j < j0 && (crossed <==> j < i)
    ensures !crossed ==> Scanned(a[..], l, r, i, j) && Apart(l, r, i, j)
    ensures crossed ==> l + 1 <= j < i <= r < a.Length && a[l] >= a[l + 1] && a[j] >= a[l + 1]
    ensures crossed ==> forall x :: l + 1 < x < i ==> a[x] >= a[l + 1]
    ensures crossed ==> forall y :: j < y <= r ==> a[y] <= a[l + 1]
    ensures i0 == l + 1 && j0 == r ==> forall k :: SharpCut(old(a[..]), l, r, k) ==> crossed && i == k && j == k - 1
  {
    ghost var s := a[..];
    Sentinels(s, l, r, i0, j0);
    hide Permuted, Scanned, SharpCut;
    var pivot := a[l + 1];
    i := ScanUp(a, i0, pivot, if j0 > i0 then j0 else i0 + 1);
    j := ScanDown(a, j0, pivot, if i0 < j0 then i0 else j0 - 1);
    crossed := j < i;
    forall k | i0 == l + 1 && j0 == r && SharpCut(s, l, r, k) ensures i == k && j == k - 1 {
      SharpEnds(s, l, r, k, i, j);
    }
    if crossed {
      Crossed(s, l, r, i0, j0, i, j);
      PermutedRefl(s, l, r);
    } else {
      Swap(a, l, r, i, j);
      Uncrossed(s, l, r, i0, j0, i, j);
    }
  }

  lemma SharpEnds(s: seq<nat>, l: nat, r: nat, k: int, i: nat, j: nat)
    requires SharpCut(s, l, r, k) && l + 1 < i <= r && s[i] <= s[l + 1]
    requires (forall x :: l + 1 < x < i ==> s[x] > s[l + 1])
    requires l + 1 <= j < r && s[j] >= s[l + 1] && (forall x :: j < x < r ==> s[x] < s[l + 1])
    ensures i == k && j == k - 1
  {
    assert s[k] < s[l + 1] <= s[k - 1];
  }

  lemma StartScan(s: seq<nat>, l: nat, r: nat)
    requires l + 2 < r < |s| && s[l] >= s[l + 1] >= s[r]
    ensures Scanned(s, l, r, l + 1, r)
  {
  }

  lemma Sentinels(s: seq<nat>, l: nat, r: nat, i: nat, j: nat)
    requires Scanned(s, l, r, i, j) && i <= j && l + 2 < r && ((i == l + 1 && j == r) || (i > l + 1 && j < r))
    ensures var up, down := if j > i then j else i + 1, if i < j then i else j - 1;
            l + 1 <= down && up <= r && s[up] <= s[l + 1] && s[down] >= s[l + 1]
  {
  }

  /** Where the scans have ended; `crossed` says that they have met. */
  ghost predicate Ended(s: seq<nat>, l: nat, r: nat, i0: nat, j0: nat, i: nat, j: nat)
  {
    && Scanned(s, l, r, i0, j0) && i0 < i <= r && l + 1 <= j < j0
    && s[i] <= s[l + 1] && s[j] >= s[l + 1]
    && (forall x :: i0 < x < i ==> s[x] > s[l + 1])
    && (forall x :: j < x < j0 ==> s[x] < s[l + 1])
  }

  lemma Crossed(s: seq<nat>, l: nat, r: nat, i0: nat, j0: nat, i: nat, j: nat)
    requires Ended(s, l, r, i0, j0, i, j) && j < i
    ensures s[l] >= s[l + 1]
    ensures forall x :: l + 1 < x < i ==> s[x] >= s[l + 1]
    ensures forall y :: j < y <= r ==> s[y] <= s[l + 1]
  {
  }

  lemma Uncrossed(s: seq<nat>, l: nat, r: nat, i0: nat, j0: nat, i: nat, j: nat)
    requires Ended(s, l, r, i0, j0, i, j) && i <= j
    ensures Scanned(Swapped(s, i, j), l, r, i, j)
  {
  }

  /** The insertion sort of a short range; it looks below the range and stops in front of it. */
  method InsertionSort(a: array<nat>, l: nat, r: nat)
    requires 1 <= l && l <= r + 1 <= a.Length
    requires l > 1 ==> forall y :: l <= y <= r ==> a[l - 1] >= a[y]
    modifies a
    ensures Permuted(old(a[..]), a[..], l, r)
    ensures forall x, y :: l <= x < y <= r ==> a[x] >= a[y]
  {
    hide Permuted;
    ghost var s0 := a[..];
    PermutedRefl(s0, l, r);
    var j := l + 1;
    while j <= r
      invariant l + 1 <= j && (j <= r + 1 || j == l + 1)
      invariant Permuted(s0, a[..], l, r)
      invariant l > 1 ==> forall y :: l <= y <= r ==> a[l - 1] >= a[y]
      invariant forall x, y :: l <= x < y < j && y <= r ==> a[x] >= a[y]
      decreases r + 1 - j
    {
      ghost var s := a[..];
      Insert(a, l, r, j);
      PermutedTrans(s0, s, a[..], l, r);
      j := j + 1;
    }
  }

  /** Moves the ID in slot `j` down to its place among the sorted slots before it. */
  method Insert(a: array<nat>, ghost l: nat, ghost r: nat, j: nat)
    requires 1 <= l < j <= r < a.Length
    requires l > 1 ==> forall y :: l <= y <= r ==> a[l - 1] >= a[y]
    requires forall x, y :: l <= x < y < j ==> a[x] >= a[y]
    modifies a
    ensures Permuted(old(a[..]), a[..], l, r)
    ensures l > 1 ==> forall y :: l <= y <= r ==> a[l - 1] >= a[y]
    ensures forall x, y :: l <= x < y <= j ==> a[x] >= a[y]
  {
    hide Permuted, Gap;
    ghost var s0 := a[..];
    PermutedRefl(s0, l, r);
    var v := a[j];
    var i := j - 1;
    assert a[..][j := v] == a[..];
    GapStart(s0, l, r, j);
    while i >= 1 && a[i] < v
      invariant Gap(a[..], l, r, j, i, v) && l - 1 <= i < j
      invariant Permuted(s0, a[..][i + 1 := v], l, r)
      decreases i
    {
      ghost var s := a[..];
      GapShift(s0, s, l, r, j, i, v);
      a[i + 1] := a[i];
      i := i - 1;
    }
    GapClose(a[..], l, r, j, i, v);
    a[i + 1] := v;
  }

  /** The slots `l..j` are in order around the gap at `i + 1`, into which `v` is to go. */
  ghost predicate Gap(s: seq<nat>, l: nat, r: nat, j: nat, i: nat, v: nat)
  {
    && 1 <= l < j <= r < |s| && l - 1 <= i < j
    && (l > 1 ==> s[l - 1] >= v && forall y :: l <= y <= r ==> s[l - 1] >= s[y])
    && (forall x, y :: l <= x < y <= j && x != i + 1 && y != i + 1 ==> s[x] >= s[y])
    && (forall y :: i + 1 < y <= j ==> s[y] < v)
  }

  lemma GapStart(s: seq<nat>, l: nat, r: nat, j: nat)
    requires 1 <= l < j <= r < |s|
    requires l > 1 ==> forall y :: l <= y <= r ==> s[l - 1] >= s[y]
    requires forall x, y :: l <= x < y < j ==> s[x] >= s[y]
    ensures Gap(s, l, r, j, j - 1, s[j])
  {
  }

  lemma GapShift(s0: seq<nat>, s: seq<nat>, l: nat, r: nat, j: nat, i: nat, v: nat)
    requires Gap(s, l, r, j, i, v) && i >= 1 && s[i] < v && Permuted(s0, s[i + 1 := v], l, r)
    ensures i >= l && Gap(s[i + 1 := s[i]], l, r, j, i - 1, v)
    ensures Permuted(s0, s[i + 1 := s[i]][i := v], l, r)
  {
    hide Permuted;
    GapMoves(s, l, r, j, i, v);
    hide Gap;
    var t := s[i + 1 := v];
    SwapPermutes(t, l, r, i, i + 1);
    assert s[i + 1 := s[i]][i := v] == Swapped(t, i, i + 1);
    PermutedTrans(s0, t, Swapped(t, i, i + 1), l, r);
  }

  lemma GapMoves(s: seq<nat>, l: nat, r: nat, j: nat, i: nat, v: nat)
    requires Gap(s, l, r, j, i, v) && i >= 1 && s[i] < v
    ensures 1 <= l <= i < j <= r < |s| && Gap(s[i + 1 := s[i]], l, r, j, i - 1, v)
  {
    assert i >= l;
    var t := s[i + 1 := s[i]];
    forall x, y | l <= x < y <= j && x != i && y != i ensures t[x] >= t[y] {
      if y == i + 1 { assert s[x] >= s[i]; }
      if x == i + 1 { assert s[i] >= s[y]; }
    }
  }

  lemma GapClose(s: seq<nat>, l: nat, r: nat, j: nat, i: nat, v: nat)
    requires Gap(s, l, r, j, i, v) && (i < 1 || s[i] >= v)
    ensures var t := s[i + 1 := v];
            && (l > 1 ==> forall y :: l <= y <= r ==> t[l - 1] >= t[y])
            && (forall x, y :: l <= x < y <= j ==> t[x] >= t[y])
  {
    var t := s[i + 1 := v];
    forall x, y | l <= x < y <= j ensures t[x] >= t[y] {
      if y == i + 1 && x < i { assert s[x] >= s[i]; }
    }
  }

  // ----- the main loop

  /** An unsorted range. */
  datatype Range = Range(l: nat, r: nat)

  /** The ranges on the stack, the bottom one first, as the stack array holds them. */
  ghost predicate OnStack(stack: seq<int>, top: nat, todo: seq<Range>)
  {
    && |stack| == STACK_SIZE && top == 2 * |todo| < STACK_SIZE
    && forall k :: 0 <= k < |todo| ==> stack[2 * k + 1] == todo[k].l && stack[2 * k + 2] == todo[k].r
  }

  /** A range lies in the list, between two cuts. */
  ghost predicate Fits(s: seq<nat>, n: nat, q: Range)
    requires n < |s|
  {
    1 <= q.l <= q.r <= n && Cut(s, n, q.l) && Cut(s, n, q.r + 1)
  }

  predicate Inside(q: Range, p: nat) { q.l < p <= q.r }

  predicate Disjoint(q: Range, u: Range) { q.r < u.l || u.r < q.l }

  /** Every position is a cut or lies inside a range that is still to be sorted. */
  ghost predicate Pending(s: seq<nat>, n: nat, todo: seq<Range>)
    requires n < |s|
  {
    && (forall k :: 0 <= k < |todo| ==> Fits(s, n, todo[k]))
    && (forall j, k :: 0 <= j < k < |todo| ==> Disjoint(todo[j], todo[k]))
    && (forall p: nat :: 2 <= p <= n ==> Cut(s, n, p) || exists k :: 0 <= k < |todo| && Inside(todo[k], p))
  }

  function Size(q: Range): int { q.r - q.l + 1 }

  /** The sizes halve from one level to the next; the last range is the current one. */
  ghost predicate Halving(n: nat, todo: seq<Range>)
  {
    forall k :: 0 <= k < |todo| ==> Size(todo[k]) * Pow2(k) <= n
  }

  function TotalSize(todo: seq<Range>): int
  {
    if todo == [] then 0 else TotalSize(todo[..|todo| - 1]) + Size(todo[|todo| - 1])
  }

  lemma {:induction false} TotalSizeNonneg(todo: seq<Range>)
    requires forall k :: 0 <= k < |todo| ==> Size(todo[k]) >= 0
    ensures TotalSize(todo) >= 0
  {
    if todo != [] { TotalSizeNonneg(todo[..|todo| - 1]); }
  }

  /** A range long enough to be split leaves room for one more on the stack. */
  lemma StackHasRoom(n: nat, size: int, k: nat)
    requires n <= INT_MAX && size > SMALL && size * Pow2(k) <= n
    ensures 2 * k + 2 < STACK_SIZE
  {
    hide Pow2;
    MulMonotone(SMALL + 1, size, Pow2(k));
    Powers();
    if k >= 28 { Pow2Monotone(28, k); }
  }

  lemma Powers()
    ensures Pow2(28) == 0x1000_0000
  {
    assert Pow2(7) == 128;
    assert Pow2(14) == 16384;
    assert Pow2(21) == 0x20_0000;
  }

  /** Permuting a part of a range permutes the range. */
  lemma Widen(s: seq<nat>, t: seq<nat>, l: nat, r: nat, n: nat)
    requires Permuted(s, t, l, r) && 1 <= l <= r <= n < |s|
    ensures Permuted(s, t, 1, n)
  {
    assert s[1..n + 1] == s[1..l] + s[l..r + 1] + s[r + 1..n + 1];
    assert t[1..n + 1] == t[1..l] + t[l..r + 1] + t[r + 1..n + 1];
    assert s[1..l] == s[..l][1..] && t[1..l] == t[..l][1..];
    assert s[r + 1..n + 1] == s[r + 1..][..n - r] && t[r + 1..n + 1] == t[r + 1..][..n - r];
    assert s[..1] == s[..l][..1] && t[..1] == t[..l][..1];
    assert s[n + 1..] == s[r + 1..][n - r..] && t[n + 1..] == t[r + 1..][n - r..];
  }

  /** Sorting the last range takes it off the list of ranges. */
  lemma PopPending(s: seq<nat>, t: seq<nat>, n: nat, todo: seq<Range>)
    requires n < |s| && Pending(s, n, todo) && todo != []
    requires var q := todo[|todo| - 1]; Permuted(s, t, q.l, q.r) && forall x, y :: q.l <= x < y <= q.r ==> t[x] >= t[y]
    ensures |t| == |s| && Pending(t, n, todo[..|todo| - 1])
  {
    var rest, q := todo[..|todo| - 1], todo[|todo| - 1];
    assert |t| == |s|;
    hide Permuted, Cut;
    assert Fits(s, n, q);
    CutKept(s, t, n, q.l, q.r, q.l);
    CutKept(s, t, n, q.l, q.r, q.r + 1);
    forall k | 0 <= k < |rest| ensures Fits(t, n, rest[k]) { FitsKept(s, t, n, q, todo[k]); }
    forall p: nat | 2 <= p <= n ensures Cut(t, n, p) || exists k :: 0 <= k < |rest| && Inside(rest[k], p) {
      if q.l <= p <= q.r + 1 { CutInside(t, n, q.l, q.r, p); }
      else if Cut(s, n, p) { CutKept(s, t, n, q.l, q.r, p); }
      else { var k :| 0 <= k < |todo| && Inside(todo[k], p); assert rest[k] == todo[k]; }
    }
  }

  lemma FitsKept(s: seq<nat>, t: seq<nat>, n: nat, q: Range, u: Range)
    requires n < |s| && Permuted(s, t, q.l, q.r) && 1 <= q.l <= q.r <= n && Fits(s, n, u) && Disjoint(q, u)
    ensures |t| == |s| && Fits(t, n, u)
  {
    assert |t| == |s|;
    hide Permuted, Cut;
    CutKept(s, t, n, q.l, q.r, u.l);
    CutKept(s, t, n, q.l, q.r, u.r + 1);
  }

  /** What the partition of a range between two cuts leaves: two ranges and cuts between them. */
  lemma SplitCuts(t: seq<nat>, n: nat, q: Range, i: nat, j: nat, p: nat)
    requires n < |t| && Fits(t, n, q) && q.l + 1 <= j < i <= q.r
    requires forall x :: q.l <= x < j ==> t[x] >= t[j]
    requires forall x :: j <= x < i ==> t[x] == t[j]
    requires forall x :: i <= x <= q.r ==> t[x] <= t[j]
    requires j <= p <= i
    ensures Cut(t, n, p)
  {
    hide Cut;
    forall x, y | q.l <= x < p <= y <= q.r ensures t[x] >= t[y] { assert t[x] >= t[j] >= t[y]; }
    CutInside(t, n, q.l, q.r, p);
  }

  /** The outcome of a partition of range `q`. */
  ghost predicate Parted(t: seq<nat>, q: Range, i: nat, j: nat)
  {
    && q.l + 1 <= j < i <= q.r < |t|
    && (forall x :: q.l <= x < j ==> t[x] >= t[j])
    && (forall x :: j <= x < i ==> t[x] == t[j])
    && (forall x :: i <= x <= q.r ==> t[x] <= t[j])
  }

  function Left(q: Range, j: nat): Range
    requires j >= 1
  {
    Range(q.l, j - 1)
  }

  function Right(q: Range, i: nat): Range { Range(i, q.r) }

  lemma SplitFits(s: seq<nat>, t: seq<nat>, n: nat, q: Range, i: nat, j: nat)
    requires n < |s| && Fits(s, n, q) && Permuted(s, t, q.l, q.r) && Parted(t, q, i, j)
    ensures |t| == |s| && Fits(t, n, Left(q, j)) && Fits(t, n, Right(q, i))
    ensures forall p: nat :: q.l <= p <= q.r + 1 ==> Cut(t, n, p) || Inside(Left(q, j), p) || Inside(Right(q, i), p)
  {
    assert |t| == |s|;
    hide Permuted, Cut;
    CutKept(s, t, n, q.l, q.r, q.l);
    CutKept(s, t, n, q.l, q.r, q.r + 1);
    forall p: nat | j <= p <= i ensures Cut(t, n, p) { SplitCuts(t, n, q, i, j, p); }
  }

  /** Partitioning the last range replaces it by two, in either order. */
  lemma SplitPending(s: seq<nat>, t: seq<nat>, n: nat, rest: seq<Range>, q: Range, i: nat, j: nat, a: Range, b: Range)
    requires n < |s| && Pending(s, n, rest + [q]) && Permuted(s, t, q.l, q.r) && Parted(t, q, i, j)
    requires (a == Left(q, j) && b == Right(q, i)) || (a == Right(q, i) && b == Left(q, j))
    ensures |t| == |s| && Pending(t, n, rest + [a, b])
  {
    var todo, now := rest + [q], rest + [a, b];
    assert todo[|rest|] == q && Fits(s, n, q);
    SplitFits(s, t, n, q, i, j);
    hide Cut, Permuted, Parted;
    forall k | 0 <= k < |rest| ensures Fits(t, n, rest[k]) && Disjoint(rest[k], q) {
      assert todo[k] == rest[k] && Disjoint(todo[k], todo[|rest|]);
      FitsKept(s, t, n, q, rest[k]);
    }
    forall k | 0 <= k < |now| ensures Fits(t, n, now[k]) { if k < |rest| { assert now[k] == rest[k]; } }
    SplitDisjoint(rest, q, a, b);
    forall p: nat | 2 <= p <= n ensures Cut(t, n, p) || exists k :: 0 <= k < |now| && Inside(now[k], p) {
      SplitCovers(s, t, n, rest, q, a, b, p);
    }
  }

  lemma SplitDisjoint(rest: seq<Range>, q: Range, a: Range, b: Range)
    requires forall j, k :: 0 <= j < k < |rest + [q]| ==> Disjoint((rest + [q])[j], (rest + [q])[k])
    requires q.l <= a.l <= a.r <= q.r && q.l <= b.l <= b.r <= q.r && Disjoint(a, b)
    ensures forall j, k :: 0 <= j < k < |rest + [a, b]| ==> Disjoint((rest + [a, b])[j], (rest + [a, b])[k])
  {
    var todo, now := rest + [q], rest + [a, b];
    forall j, k | 0 <= j < k < |now| ensures Disjoint(now[j], now[k]) {
      if j < |rest| { assert Disjoint(todo[j], todo[|rest|]); if k < |rest| { assert Disjoint(todo[j], todo[k]); } }
    }
  }

  lemma SplitCovers(s: seq<nat>, t: seq<nat>, n: nat, rest: seq<Range>, q: Range, a: Range, b: Range, p: nat)
    requires n < |s| == |t| && Pending(s, n, rest + [q]) && Permuted(s, t, q.l, q.r) && Fits(s, n, q)
    requires forall p: nat :: q.l <= p <= q.r + 1 ==> Cut(t, n, p) || Inside(a, p) || Inside(b, p)
    requires 2 <= p <= n
    ensures var now := rest + [a, b]; Cut(t, n, p) || exists k :: 0 <= k < |now| && Inside(now[k], p)
  {
    hide Cut, Permuted;
    var todo, now := rest + [q], rest + [a, b];
    assert now[|rest|] == a && now[|rest| + 1] == b;
    if !(q.l <= p <= q.r + 1) {
      if Cut(s, n, p) {
        CutKept(s, t, n, q.l, q.r, p);
      } else {
        var k :| 0 <= k < |todo| && Inside(todo[k], p);
        assert k < |rest| && now[k] == todo[k];
      }
    }
  }

  lemma SplitHalving(n: nat, rest: seq<Range>, q: Range, a: Range, b: Range)
    requires Halving(n, rest + [q]) && 0 <= Size(b) <= Size(a) && Size(a) + Size(b) < Size(q)
    ensures Halving(n, rest + [a, b])
    ensures TotalSize(rest + [a, b]) < TotalSize(rest + [q])
  {
    var todo, now, m := rest + [q], rest + [a, b], |rest|;
    assert todo[m] == q;
    assert Size(q) * Pow2(m) <= n;
    MulMonotone(Size(a), Size(q), Pow2(m));
    MulMonotone(2 * Size(b), Size(q), Pow2(m));
    assert Size(b) * Pow2(m + 1) == 2 * Size(b) * Pow2(m) by { DoubleMul(Size(b), Pow2(m)); }
    forall k | 0 <= k < |now| ensures Size(now[k]) * Pow2(k) <= n { if k < m { assert todo[k] == now[k]; } }
    assert todo[..m] == rest && now[..m + 1] == rest + [a] && (rest + [a])[..m] == rest;
  }

  /** The state between two turns of the main loop. */
  ghost predicate Progress(s0: seq<nat>, s: seq<nat>, n: nat, todo: seq<Range>)
  {
    n < |s| && s[0] == n && Pending(s, n, todo) && Halving(n, todo) && Permuted(s0, s, 1, n)
  }

  lemma StartProgress(s: seq<nat>, n: nat)
    requires 1 <= n < |s| && s[0] == n
    ensures Progress(s, s, n, [Range(1, n)])
  {
    PermutedRefl(s, 1, n);
    assert Inside(Range(1, n), n) || n == 1;
    assert Pow2(0) == 1;
    var todo := [Range(1, n)];
    forall p: nat | 2 <= p <= n
      ensures Cut(s, n, p) || exists k :: 0 <= k < |todo| && Inside(todo[k], p)
    {
      assert Inside(todo[0], p);
    }
  }

  lemma LastRange(s0: seq<nat>, s: seq<nat>, n: nat, rest: seq<Range>, q: Range)
    requires Progress(s0, s, n, rest + [q])
    ensures 1 <= q.l <= q.r <= n < |s| && Fits(s, n, q)
    ensures TotalSize(rest + [q]) > TotalSize(rest) >= 0
  {
    hide Cut, Permuted;
    var todo := rest + [q];
    assert todo[|rest|] == q && todo[..|rest|] == rest;
    forall k | 0 <= k < |rest| ensures Size(rest[k]) >= 0 { assert Fits(s, n, todo[k]); }
    TotalSizeNonneg(rest);
  }

  lemma LastSize(s0: seq<nat>, s: seq<nat>, n: nat, rest: seq<Range>, q: Range)
    requires Progress(s0, s, n, rest + [q])
    ensures Size(q) * Pow2(|rest|) <= n
  {
    assert (rest + [q])[|rest|] == q;
  }

  /** The lower bound of a range is guarded by the slot in front of it. */
  lemma Fence(s: seq<nat>, n: nat, q: Range)
    requires n < |s| && Fits(s, n, q)
    ensures q.l > 1 ==> forall y :: q.l <= y <= q.r ==> s[q.l - 1] >= s[y]
  {
  }

  lemma StillPermuted(s0: seq<nat>, s: seq<nat>, t: seq<nat>, n: nat, q: Range)
    requires Permuted(s0, s, 1, n) && Permuted(s, t, q.l, q.r) && 1 <= q.l <= q.r <= n < |s| && s[0] == n
    ensures |t| == |s| && Permuted(s0, t, 1, n) && t[0] == n
  {
    PermutedOutside(s, t, q.l, q.r, 0);
    Widen(s, t, q.l, q.r, n);
    assert |t| == |s|;
    hide Permuted;
    PermutedTrans(s0, s, t, 1, n);
  }

  lemma HalvingPrefix(n: nat, rest: seq<Range>, q: Range)
    requires Halving(n, rest + [q])
    ensures Halving(n, rest)
  {
    forall k | 0 <= k < |rest| ensures Size(rest[k]) * Pow2(k) <= n { assert (rest + [q])[k] == rest[k]; }
  }

  /** The insertion-sort turn finishes the current range. */
  method ShortTurn(ids: array<nat>, l: nat, r: nat, ghost n: nat, ghost s0: seq<nat>, ghost rest: seq<Range>)
    requires Progress(s0, ids[..], n, rest + [Range(l, r)])
    modifies ids
    ensures Progress(s0, ids[..], n, rest)
  {
    ghost var s, q := ids[..], Range(l, r);
    LastRange(s0, s, n, rest, q);
    Fence(s, n, q);
    HalvingPrefix(n, rest, q);
    hide Permuted, Pending, Halving, Cut;
    InsertionSort(ids, l, r);
    StillPermuted(s0, s, ids[..], n, q);
    assert (rest + [q])[|rest|] == q && (rest + [q])[..|rest|] == rest;
    PopPending(s, ids[..], n, rest + [q]);
  }

  /** The middle slot holds the median of three, and is a sharp cut at `k` once it has been moved to `l + 1`. */
  ghost predicate SharpMedian(s: seq<nat>, l: nat, r: nat, k: int)
  {
    var mid := (l + r) / 2;
    r < |s| && l + 1 < mid < r && s[l] >= s[mid] >= s[r] && SharpCut(Swapped(s, mid, l + 1), l, r, k)
  }

  method MedianPartition(ids: array<nat>, l: nat, r: nat) returns (i: nat, j: nat)
    requires r - l >= SMALL && r < ids.Length
    modifies ids
    ensures l + 1 <= j < i <= r
    ensures Permuted(old(ids[..]), ids[..], l, r) && Parted(ids[..], Range(l, r), i, j)
    ensures forall k :: SharpMedian(old(ids[..]), l, r, k) ==> i == k && j == k - 1
  {
    hide Permuted;
    ghost var s := ids[..];
    MedianOfThree(ids, l, r, (l + r) / 2);
    ghost var u := ids[..];
    i, j := Partition(ids, l, r);
    PermutedTrans(s, u, ids[..], l, r);
  }

  /** The quicksort turn splits the current range; the larger part is to be pushed. */
  method LongTurn(ids: array<nat>, l: nat, r: nat, ghost n: nat, ghost s0: seq<nat>, ghost rest: seq<Range>)
      returns (i: nat, j: nat)
    requires Progress(s0, ids[..], n, rest + [Range(l, r)]) && r - l >= SMALL && n <= INT_MAX
    modifies ids
    ensures l + 1 <= j < i <= r && 2 * |rest| + 2 < STACK_SIZE
    ensures var (a, b) := if r - i + 1 >= j - l then (Range(i, r), Range(l, j - 1)) else (Range(l, j - 1), Range(i, r));
            Progress(s0, ids[..], n, rest + [a, b]) && TotalSize(rest + [a, b]) < TotalSize(rest + [Range(l, r)])
    ensures forall k :: SharpMedian(old(ids[..]), l, r, k) ==> i == k && j == k - 1
  {
    ghost var s, q := ids[..], Range(l, r);
    LastRange(s0, s, n, rest, q);
    LastSize(s0, s, n, rest, q);
    StackHasRoom(n, Size(q), |rest|);
    hide Permuted, Pending, Halving, Cut, TotalSize, Parted, Pow2, Fits, SharpMedian;
    i, j := MedianPartition(ids, l, r);
    ghost var t := ids[..];
    StillPermuted(s0, s, t, n, q);
    if r - i + 1 >= j - l {
      SplitPending(s, t, n, rest, q, i, j, Right(q, i), Left(q, j));
      SplitHalving(n, rest, q, Right(q, i), Left(q, j));
    } else {
      SplitPending(s, t, n, rest, q, i, j, Left(q, j), Right(q, i));
      SplitHalving(n, rest, q, Left(q, j), Right(q, i));
    }
  }

  /** With no range left, the list is sorted. */
  lemma AllCuts(s0: seq<nat>, s: seq<nat>, n: nat)
    requires Progress(s0, s, n, [])
    ensures Permuted(s0, s, 1, n) && s[0] == n
    ensures forall x, y :: 1 <= x < y <= n ==> s[x] >= s[y]
  {
    hide Permuted;
    forall x: nat, y: nat | 1 <= x < y <= n ensures s[x] >= s[y] { assert Cut(s, n, y); }
  }

  /** A list whose first split leaves the last nine IDs as a range of their own. */
  ghost predicate Skewed(s: seq<nat>, n: nat)
  {
    var mid := (1 + n) / 2;
    && 40 <= n < |s|
    && (forall x :: 1 <= x < n - 8 && x != mid ==> s[x] > s[mid])
    && (forall x :: n - 8 <= x <= n ==> s[x] < s[mid])
  }

  lemma SkewedIsSharp(s: seq<nat>, n: nat)
    requires Skewed(s, n)
    ensures SharpMedian(s, 1, n, n - 8)
  {
    var t := Swapped(s, (1 + n) / 2, 2);
    assert t[2] == s[(1 + n) / 2];
  }

  /** There is such a list of every length from 40 on. */
  lemma SkewedList(n: nat) returns (s: seq<nat>)
    requires n >= 40
    ensures |s| == n + 1 && s[0] == n && Skewed(s, n)
  {
    s := seq(n + 1, x => if x == 0 then n else if x == (1 + n) / 2 then 1 else if x < n - 8 then 2 else 0);
  }

  /** The longest list for which no sum of two bounds can exceed the largest int. */
  const SAFE_LENGTH := 0x4000_0003

  /** What is known about an overflow before the range `l..r` is dealt with. */
  ghost predicate WideOk(s0: seq<nat>, s: seq<nat>, n: nat, l: int, r: int, wide: bool)
  {
    && (n <= SAFE_LENGTH ==> !wide)
    && (n > SAFE_LENGTH && Skewed(s0, n) ==> wide || (l == 1 && r == n && s == s0) || (l == n - 8 && r == n))
    && (n == INT_MAX ==> wide || (l == 1 && r == n))
  }

  /** The overflow has happened if it had to, whatever comes now. */
  ghost predicate WideKnown(s0: seq<nat>, n: nat, wide: bool)
  {
    (n <= SAFE_LENGTH ==> !wide) && (n > SAFE_LENGTH && (Skewed(s0, n) || n == INT_MAX) ==> wide)
  }

  lemma WideStart(s0: seq<nat>, n: nat)
    ensures WideOk(s0, s0, n, 1, n, false)
  {
  }

  /** Neither the first range nor the one to wait for is short. */
  lemma WideAtShort(s0: seq<nat>, s: seq<nat>, n: nat, l: int, r: int, wide: bool)
    requires WideOk(s0, s, n, l, r, wide) && r - l < SMALL
    ensures WideKnown(s0, n, wide)
  {
  }

  lemma WideAnywhere(s0: seq<nat>, s: seq<nat>, n: nat, l: int, r: int, wide: bool)
    requires WideKnown(s0, n, wide)
    ensures WideOk(s0, s, n, l, r, wide)
  {
  }

  /** The first split of a skewed list goes on with its last nine IDs, whose bounds add up to `2 * n - 8`. */
  lemma WideAtLong(s0: seq<nat>, s: seq<nat>, t: seq<nat>, n: nat, l: nat, r: nat, before: bool, wide: bool, i: nat,
      j: nat)
    requires WideOk(s0, s, n, l, r, before) && 1 <= l <= r <= n && r - l >= SMALL && wide == (before || l + r > INT_MAX)
    requires l + 1 <= j < i <= r
    requires forall k :: SharpMedian(s, l, r, k) ==> i == k && j == k - 1
    ensures if r - i + 1 >= j - l then WideOk(s0, t, n, l, j - 1, wide) else WideOk(s0, t, n, i, r, wide)
  {
    hide SharpMedian;
    if n > SAFE_LENGTH && Skewed(s0, n) && l == 1 && r == n && s == s0 { SkewedIsSharp(s0, n); }
    hide Skewed;
  }

  /**
    `mdb_midl_sort`: a descending permutation of every list whose length is an int; the stack
    array is never overrun.  `wide` tells whether the sum of the bounds, taken as a C int for the
    midpoint, would ever have overflowed.  That cannot happen up to a length of 2^30 + 3, and
    does happen for some list of every greater length.  Once `wide` is set, the order is that of a
    sort with an unbounded midpoint, which an int does not compute.
   */
  method Sort(ids: array<nat>) returns (wide: bool)
    requires ids.Length > 0 && ids[0] < ids.Length && ids[0] <= INT_MAX
    modifies ids
    ensures ids[0] == old(ids[0])
    ensures Permuted(old(ids[..]), ids[..], 1, ids[0])
    ensures forall x, y :: 1 <= x < y <= ids[0] ==> ids[x] >= ids[y]
    ensures ids[0] <= SAFE_LENGTH ==> !wide
    ensures ids[0] > SAFE_LENGTH && Skewed(old(ids[..]), ids[0]) ==> wide
    ensures ids[0] == INT_MAX ==> wide
  {
    hide Permuted, Progress, TotalSize, Fits, Skewed, SharpMedian, WideOk;
    var n := ids[0];
    ghost var s0 := ids[..];
    PermutedRefl(s0, 1, n);
    wide := false;
    var istack := new int[STACK_SIZE];
    var l: int, r: int, top: nat := 1, n, 0;
    ghost var rest: seq<Range> := [];
    if n == 0 {
      return; // the first turn of the loop finds nothing to do and ends it
    }
    StartProgress(s0, n);
    WideStart(s0, n);
    assert rest + [Range(1, n)] == [Range(1, n)];
    while true
      invariant 1 <= l <= r <= n && istack.Length == STACK_SIZE
      invariant OnStack(istack[..], top, rest)
      invariant Progress(s0, ids[..], n, rest + [Range(l, r)])
      invariant WideOk(s0, ids[..], n, l, r, wide)
      decreases TotalSize(rest + [Range(l, r)])
    {
      ghost var q := Range(l, r);
      LastRange(s0, ids[..], n, rest, q);
      if r - l < SMALL {
        WideAtShort(s0, ids[..], n, l, r, wide);
        ShortTurn(ids, l, r, n, s0, rest);
        if top == 0 {
          assert rest == [];
          break;
        }
        ghost var last := rest[|rest| - 1];
        assert rest == rest[..|rest| - 1] + [last];
        r, l := istack[top], istack[top - 1];
        top := top - 2;
        rest := rest[..|rest| - 1];
        LastRange(s0, ids[..], n, rest, last);
        WideAnywhere(s0, ids[..], n, l, r, wide);
      } else {
        ghost var s, before := ids[..], wide;
        wide := wide || l + r > INT_MAX;
        var i, j := LongTurn(ids, l, r, n, s0, rest);
        WideAtLong(s0, s, ids[..], n, l, r, before, wide, i, j);
        top := top + 2;
        ghost var pushed: Range;
        if r - i + 1 >= j - l {
          istack[top], istack[top - 1] := r, i;
          pushed := Range(i, r);
          r := j - 1;
        } else {
          istack[top], istack[top - 1] := j - 1, l;
          pushed := Range(l, j - 1);
          l := i;
        }
        assert rest + [pushed, Range(l, r)] == (rest + [pushed]) + [Range(l, r)];
        rest := rest + [pushed];
      }
    }
    AllCuts(s0, ids[..], n);
  }
}
