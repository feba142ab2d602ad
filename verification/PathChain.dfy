/**
  Shared path strings: reference-counted parts that name their prefix.

  A part's count is the number of outside handles on it plus the number of parts that name it
  as their prefix.  Releasing a handle frees exactly the parts that no handle reaches any more.
 */
module PathChain {

  /** Part numbers; 0 is the null reference. */
  type Ref = nat

  datatype Part = Part(rc: nat, data: string, prev: Ref)

  type Parts = map<Ref, Part>

  /** Prefixes exist and come before what builds on them, in the order `rank`. */
  ghost predicate Ordered(parts: Parts, rank: map<Ref, nat>)
  {
    && 0 !in parts && parts.Keys == rank.Keys
    && forall r :: r in parts && parts[r].prev != 0 ==> parts[r].prev in parts && rank[parts[r].prev] < rank[r]
  }

  function Children(parts: Parts, r: Ref): set<Ref> { set c | c in parts && parts[c].prev == r }

  ghost predicate CountsRight(parts: Parts, handles: multiset<Ref>)
  {
    forall r :: r in parts ==> parts[r].rc == handles[r] + |Children(parts, r)| && parts[r].rc >= 1
  }

  /** The parts with another count for `r`. */
  function WithCount(parts: Parts, r: Ref, rc: nat): Parts
    requires r in parts
  {
    parts[r := parts[r].(rc := rc)]
  }

  /** The parts with a new part on top of `tip`, which it counts. */
  function WithPart(parts: Parts, cur: Ref, tip: Ref, data: string): Parts
    requires tip == 0 || tip in parts
  {
    (if tip != 0 then WithCount(parts, tip, parts[tip].rc + 1) else parts)[cur := Part(1, data, tip)]
  }

  /** The text of a handle: its prefix's text, then its own. */
  ghost function Text(parts: Parts, rank: map<Ref, nat>, r: Ref): string
    requires Ordered(parts, rank) && (r == 0 || r in parts)
    decreases if r == 0 then 0 else rank[r] + 1
  {
    if r == 0 then "" else Text(parts, rank, parts[r].prev) + parts[r].data
  }

  /** Part `r` is `h` or one of its prefixes. */
  ghost predicate Reaches(parts: Parts, rank: map<Ref, nat>, h: Ref, r: Ref)
    requires Ordered(parts, rank) && h in parts
    decreases rank[h]
  {
    h == r || (parts[h].prev != 0 && Reaches(parts, rank, parts[h].prev, r))
  }

  ghost predicate Live(parts: Parts, rank: map<Ref, nat>, handles: multiset<Ref>, r: Ref)
    requires Ordered(parts, rank)
  {
    exists h :: h in handles && h in parts && Reaches(parts, rank, h, r)
  }

  lemma {:induction false} ReachesTrans(parts: Parts, rank: map<Ref, nat>, h: Ref, c: Ref)
    requires Ordered(parts, rank) && h in parts && c in parts && Reaches(parts, rank, h, c) && parts[c].prev != 0
    ensures Reaches(parts, rank, h, parts[c].prev)
    decreases rank[h]
  {
    if h != c { ReachesTrans(parts, rank, parts[h].prev, c); }
  }

  /** The parts that come after `r` in the order. */
  ghost function Later(parts: Parts, rank: map<Ref, nat>, r: Ref): set<Ref>
    requires Ordered(parts, rank) && r in parts
  {
    set x | x in parts && rank[x] > rank[r]
  }

  /** With right counts, no part is kept that no handle reaches. */
  lemma {:induction false} EverythingIsLive(parts: Parts, rank: map<Ref, nat>, handles: multiset<Ref>, r: Ref)
    requires Ordered(parts, rank) && CountsRight(parts, handles) && r in parts
    ensures Live(parts, rank, handles, r)
    decreases Later(parts, rank, r)
  {
    if r in handles {
      assert Reaches(parts, rank, r, r);
    } else {
      assert Children(parts, r) != {};
      var c :| c in Children(parts, r);
      assert c in Later(parts, rank, r) && c !in Later(parts, rank, c);
      EverythingIsLive(parts, rank, handles, c);
      var h :| h in handles && h in parts && Reaches(parts, rank, h, c);
      ReachesTrans(parts, rank, h, c);
    }
  }

  /** Reaching and reading depend on the parts reached only. */
  lemma {:induction false} SameBelow(a: Parts, b: Parts, ra: map<Ref, nat>, rb: map<Ref, nat>, h: Ref)
    requires Ordered(a, ra) && Ordered(b, rb) && h in a && h in b
    requires forall r :: r in a && r in b ==> a[r].data == b[r].data && a[r].prev == b[r].prev
    ensures Text(a, ra, h) == Text(b, rb, h)
    ensures forall r :: Reaches(a, ra, h, r) <==> Reaches(b, rb, h, r)
    decreases ra[h]
  {
    if a[h].prev != 0 { SameBelow(a, b, ra, rb, a[h].prev); }
  }

  /** With no handle left, nothing is left. */
  lemma NothingLeaks(parts: Parts, rank: map<Ref, nat>)
    requires Ordered(parts, rank) && CountsRight(parts, multiset{})
    ensures parts == map[]
  {
    if r :| r in parts { EverythingIsLive(parts, rank, multiset{}, r); }
  }

  class Store {
    var parts: Parts
    /** The handles held outside the store. */
    ghost var handles: multiset<Ref>
    ghost var rank: map<Ref, nat>

    ghost predicate Valid()
      reads this
    {
      && Ordered(parts, rank) && CountsRight(parts, handles)
      && forall r :: r in handles ==> r in parts
    }

    constructor ()
      ensures Valid() && parts == map[] && handles == multiset{}
    {
      parts, handles, rank := map[], multiset{}, map[];
    }

    /** `STRING_PART_RC_INC`: one more handle on a part. */
    method Retain(r: Ref)
      requires Valid() && r in handles
      modifies this
      ensures Valid() && handles == old(handles) + multiset{r} && rank == old(rank)
      ensures parts == WithCount(old(parts), r, old(parts)[r].rc + 1)
      ensures Text(parts, rank, r) == old(Text(parts, rank, r))
    {
      hide CountsRight, Text, Ordered;
      RetainOk(parts, rank, handles, r);
      parts := WithCount(parts, r, parts[r].rc + 1);
      handles := handles + multiset{r};
    }

    static lemma RetainOk(parts: Parts, rank: map<Ref, nat>, handles: multiset<Ref>, r: Ref)
      requires Ordered(parts, rank) && CountsRight(parts, handles) && r in parts
      ensures var now := WithCount(parts, r, parts[r].rc + 1);
              Ordered(now, rank) && CountsRight(now, handles + multiset{r}) &&
                  Text(now, rank, r) == Text(parts, rank, r)
    {
      hide Text, CountsRight;
      var now := WithCount(parts, r, parts[r].rc + 1);
      assert Ordered(now, rank);
      RetainCounts(parts, handles, r);
      SameBelow(now, parts, rank, rank, r);
    }

    static lemma RetainCounts(parts: Parts, handles: multiset<Ref>, r: Ref)
      requires CountsRight(parts, handles) && r in parts
      ensures CountsRight(WithCount(parts, r, parts[r].rc + 1), handles + multiset{r})
    {
      hide Children;
      var now := WithCount(parts, r, parts[r].rc + 1);
      forall x | x in now ensures now[x].rc == (handles + multiset{r})[x] + |Children(now, x)| && now[x].rc >= 1 {
        SameChildren(parts, r, parts[r].rc + 1, x);
      }
    }

    static lemma SameChildren(parts: Parts, r: Ref, rc: nat, x: Ref)
      requires r in parts
      ensures Children(WithCount(parts, r, rc), x) == Children(parts, x)
    {
    }

    /** `toStringPart`: a new part on top of an optional prefix, in memory the allocator returned. */
    method Append(tip: Ref, s1: string, s2: string, fresh_: Ref) returns (cur: Ref)
      requires Valid() && (tip == 0 || tip in handles) && fresh_ != 0 && fresh_ !in parts
      modifies this
      ensures Valid() && cur == fresh_ && handles == old(handles) + multiset{cur}
      ensures parts.Keys == old(parts).Keys + {cur}
      ensures Text(parts, rank, cur) == old(Text(parts, rank, tip)) + s1 + s2
      ensures forall r :: r in old(handles) ==> Text(parts, rank, r) == old(Text(parts, rank, r))
    {
      hide CountsRight, Text, Ordered;
      cur := fresh_;
      ghost var was, wasRank := parts, rank;
      AppendOk(parts, rank, handles, cur, tip, s1 + s2);
      if tip != 0 {
        parts := WithCount(parts, tip, parts[tip].rc + 1);
      }
      parts := parts[cur := Part(1, s1 + s2, tip)];
      rank := rank[cur := if tip == 0 then 0 else rank[tip] + 1];
      handles := handles + multiset{cur};
    }

    static lemma AppendOk(was: Parts, rank: map<Ref, nat>, handles: multiset<Ref>, cur: Ref, tip: Ref, data: string)
      requires Ordered(was, rank) && CountsRight(was, handles) && cur !in was && cur != 0 && (tip == 0 || tip in was)
      requires forall r :: r in handles ==> r in was
      ensures tip != 0 ==> tip in rank
      ensures var now, rank' := WithPart(was, cur, tip, data), rank[cur := if tip == 0 then 0 else rank[tip] + 1];
              && Ordered(now, rank') && CountsRight(now, handles + multiset{cur})
              && Text(now, rank', cur) == Text(was, rank, tip) + data
              && forall r :: r in was ==> Text(now, rank', r) == Text(was, rank, r)
    {
      hide Text;
      var now, rank' := WithPart(was, cur, tip, data), rank[cur := if tip == 0 then 0 else rank[tip] + 1];
      assert Ordered(now, rank');
      forall r | r in now ensures now[r].rc == (handles + multiset{cur})[r] + |Children(now, r)| && now[r].rc >= 1 {
        AppendCount(was, rank, handles, cur, tip, data, r);
      }
      AppendTexts(was, rank, now, rank', cur, tip);
    }

    static lemma AppendCount(was: Parts, rank: map<Ref, nat>, handles: multiset<Ref>, cur: Ref, tip: Ref, data: string,
        r: Ref)
      requires Ordered(was, rank) && CountsRight(was, handles) && cur !in was && cur != 0 && (tip == 0 || tip in was)
      requires (forall r :: r in handles ==> r in was) && (r == cur || r in was)
      ensures var now := WithPart(was, cur, tip, data);
              now[r].rc == (handles + multiset{cur})[r] + |Children(now, r)| && now[r].rc >= 1
    {
      hide Children;
      AppendChildren(was, cur, tip, data, r);
      if r == cur { NobodyNames(was, rank, cur); }
    }

    static lemma AppendChildren(was: Parts, cur: Ref, tip: Ref, data: string, r: Ref)
      requires cur !in was && (tip == 0 || tip in was)
      ensures |Children(WithPart(was, cur, tip, data), r)| == |Children(was, r)| + (if r == tip then 1 else 0)
    {
      hide Children;
      if tip == 0 {
        AddChild(was, cur, Part(1, data, tip), r);
      } else {
        SameChildren(was, tip, was[tip].rc + 1, r);
        AddChild(WithCount(was, tip, was[tip].rc + 1), cur, Part(1, data, tip), r);
      }
    }

    static lemma AddChild(parts: Parts, cur: Ref, p: Part, r: Ref)
      requires cur !in parts
      ensures |Children(parts[cur := p], r)| == |Children(parts, r)| + (if r == p.prev then 1 else 0)
    {
      assert Children(parts[cur := p], r) == Children(parts, r) + (if r == p.prev then {cur} else {});
    }

    static lemma NobodyNames(was: Parts, rank: map<Ref, nat>, cur: Ref)
      requires Ordered(was, rank) && cur !in was && cur != 0
      ensures |Children(was, cur)| == 0
    {
      assert Children(was, cur) == {};
    }

    static lemma AppendTexts(was: Parts, wasRank: map<Ref, nat>, now: Parts, rank: map<Ref, nat>, cur: Ref, tip: Ref)
      requires Ordered(was, wasRank) && Ordered(now, rank) && cur in now && cur !in was && now[cur].prev == tip
      requires forall r :: r in was ==> r in now && was[r].data == now[r].data && was[r].prev == now[r].prev
      requires tip == 0 || tip in was
      ensures Text(now, rank, cur) == Text(was, wasRank, tip) + now[cur].data
      ensures forall r :: r in was ==> Text(now, rank, r) == Text(was, wasRank, r)
    {
      forall r | r in was ensures Text(now, rank, r) == Text(was, wasRank, r) { SameBelow(was, now, wasRank, rank, r); }
    }

    /**
      `stringPartRelease`: gives back one handle.  The parts that stay are exactly those that the
      remaining handles reach, unchanged but for counts.
     */
    method Release(s: Ref)
      requires Valid() && (s == 0 || s in handles)
      modifies this
      ensures Valid() && handles == old(handles) - (if s == 0 then multiset{} else multiset{s})
      ensures forall r :: r in parts <==> r in old(parts) && Live(old(parts), old(rank), handles, r)
      ensures forall r :: r in parts ==> parts[r].data == old(parts)[r].data && parts[r].prev == old(parts)[r].prev
    {
      hide Valid, CountsRight, Text, Reaches, Live, Ordered, Shrunk;
      ghost var was, wasRank := parts, rank;
      var cur := s;
      ghost var left := handles - (if s == 0 then multiset{} else multiset{s});
      Begin(s);
      while cur != 0
        invariant Valid() && handles == left + (if cur == 0 then multiset{} else multiset{cur})
        invariant cur != 0 ==> cur in rank
        invariant Shrunk(was, wasRank, parts, rank)
        decreases if cur == 0 then 0 else rank[cur] + 1
      {
        cur := Turn(cur, left, was, wasRank);
      }
      Finished(was, wasRank);
    }

    lemma Begin(s: Ref)
      requires Valid() && (s == 0 || s in handles)
      ensures Ordered(parts, rank) && Shrunk(parts, rank, parts, rank) && (s != 0 ==> s in rank)
    {
      hide CountsRight;
    }

    lemma Finished(was: Parts, wasRank: map<Ref, nat>)
      requires Valid() && Shrunk(was, wasRank, parts, rank)
      ensures Ordered(was, wasRank)
      ensures forall r :: r in parts <==> r in was && Live(was, wasRank, handles, r)
      ensures forall r :: r in parts ==> r in was && parts[r].data == was[r].data && parts[r].prev == was[r].prev
    {
      hide CountsRight, Live, Ordered;
      WhatStays(was, wasRank, parts, rank, handles);
    }

    /** A turn of the loop, seen from its beginning. */
    method Turn(cur: Ref, ghost left: multiset<Ref>, ghost was: Parts, ghost wasRank: map<Ref, nat>) returns (next: Ref)
      requires Valid() && handles == left + multiset{cur} && Shrunk(was, wasRank, parts, rank)
      modifies this
      ensures Valid() && handles == left + (if next == 0 then multiset{} else multiset{next})
      ensures next != 0 ==> next in rank && cur in old(rank) && rank[next] < old(rank)[cur]
      ensures Shrunk(was, wasRank, parts, rank)
    {
      hide CountsRight, Ordered, Shrunk;
      ghost var before, beforeRank := parts, rank;
      next := ReleaseOne(cur);
      StillShrunk(was, wasRank, before, beforeRank, parts, rank);
    }

    /**
      One turn of the loop: drops a count, and if it was the last one frees the part and goes on
      with its prefix, whose reference it now owes.  The store is consistent between turns.
     */
    method ReleaseOne(cur: Ref) returns (next: Ref)
      requires Valid() && cur in handles
      modifies this
      ensures Valid() && handles == old(handles) - multiset{cur} + (if next == 0 then multiset{} else multiset{next})
      ensures next != 0 ==> next in rank && cur in old(rank) && rank[next] < old(rank)[cur]
      ensures Kept(old(parts), old(rank), parts, rank)
    {
      hide CountsRight, Text, Ordered, Children, Kept, WithCount;
      OrderFacts(parts, rank);
      var part := parts[cur];
      if part.rc > 1 {
        DropCount(parts, rank, handles, cur);
        parts := WithCount(parts, cur, part.rc - 1);
        handles := handles - multiset{cur};
        return 0;
      }
      FreePart(parts, rank, handles, cur);
      parts := parts - {cur};
      rank := rank - {cur};
      handles := handles - multiset{cur} + (if part.prev == 0 then multiset{} else multiset{part.prev});
      next := part.prev;
    }

    /** What is still there is as it was; only counts may differ. */
    static ghost predicate Kept(was: Parts, wasRank: map<Ref, nat>, now: Parts, rank: map<Ref, nat>)
    {
      && (forall r :: r in now ==> r in rank && r in was && r in wasRank && rank[r] == wasRank[r])
      && (forall r :: r in now ==> now[r].data == was[r].data && now[r].prev == was[r].prev)
    }

    static lemma OrderFacts(parts: Parts, rank: map<Ref, nat>)
      requires Ordered(parts, rank)
      ensures 0 !in parts && parts.Keys == rank.Keys
      ensures forall r :: r in parts && parts[r].prev != 0 ==> parts[r].prev in parts && rank[parts[r].prev] < rank[r]
    {
    }

    static lemma StillShrunk(was: Parts, wasRank: map<Ref, nat>, mid: Parts, midRank: map<Ref, nat>, now: Parts,
        rank: map<Ref, nat>)
      requires Shrunk(was, wasRank, mid, midRank) && Ordered(now, rank)
      requires Kept(mid, midRank, now, rank)
      ensures Shrunk(was, wasRank, now, rank)
    {
    }

    /** A part of the store as it was; only counts may differ. */
    static ghost predicate Shrunk(was: Parts, wasRank: map<Ref, nat>, now: Parts, rank: map<Ref, nat>)
    {
      && Ordered(was, wasRank) && Ordered(now, rank)
      && (forall r :: r in now ==> r in was && rank[r] == wasRank[r])
      && (forall r :: r in now ==> now[r].data == was[r].data && now[r].prev == was[r].prev)
    }

    static lemma DropCount(parts: Parts, rank: map<Ref, nat>, handles: multiset<Ref>, cur: Ref)
      requires Ordered(parts, rank) && CountsRight(parts, handles) && cur in handles && cur in parts
      requires parts[cur].rc > 1
      requires forall r :: r in handles ==> r in parts
      ensures var now := WithCount(parts, cur, parts[cur].rc - 1);
              Ordered(now, rank) && CountsRight(now, handles - multiset{cur}) && Kept(parts, rank, now, rank) &&
                  forall r :: r in handles - multiset{cur} ==> r in now
    {
      var now := WithCount(parts, cur, parts[cur].rc - 1);
      forall r | r in now
        ensures Children(now, r) == Children(parts, r)
      {
        SameChildren(parts, cur, parts[cur].rc - 1, r);
      }
    }

    /** Freeing the last reference to a part turns its own reference to its prefix into a handle. */
    static lemma FreePart(parts: Parts, rank: map<Ref, nat>, handles: multiset<Ref>, cur: Ref)
      requires Ordered(parts, rank) && CountsRight(parts, handles) && cur in handles && cur in parts
      requires parts[cur].rc <= 1
      requires forall r :: r in handles ==> r in parts
      ensures var prev := parts[cur].prev;
              var now, after := parts - {cur},
                  handles - multiset{cur} + (if prev == 0 then multiset{} else multiset{prev});
              Ordered(now, rank - {cur}) && CountsRight(now, after) && Kept(parts, rank, now, rank - {cur}) &&
                  forall r :: r in after ==> r in now
    {
      var prev := parts[cur].prev;
      var now, after := parts - {cur}, handles - multiset{cur} + (if prev == 0 then multiset{} else multiset{prev});
      assert handles[cur] == 1 && Children(parts, cur) == {};
      forall r | r in now && now[r].prev != 0 ensures now[r].prev in now { NotOnto(parts, cur, r); }
      forall r | r in now ensures |Children(now, r)| == |Children(parts, r)| - (if r == prev then 1 else 0) {
        ChildrenWithout(parts, cur, r);
      }
    }

    static lemma NotOnto(parts: Parts, cur: Ref, r: Ref)
      requires Children(parts, cur) == {} && r in parts
      ensures parts[r].prev != cur
    {
      assert r !in Children(parts, cur);
    }

    static lemma ChildrenWithout(parts: Parts, cur: Ref, r: Ref)
      requires cur in parts
      ensures |Children(parts - {cur}, r)| == |Children(parts, r)| - (if r == parts[cur].prev then 1 else 0)
    {
      assert Children(parts - {cur}, r) == Children(parts, r) - {cur};
    }

    static lemma WhatStays(was: Parts, wasRank: map<Ref, nat>, now: Parts, rank: map<Ref, nat>, handles: multiset<Ref>)
      requires Shrunk(was, wasRank, now, rank) && CountsRight(now, handles) && forall r :: r in handles ==> r in now
      ensures forall r :: r in now <==> r in was && Live(was, wasRank, handles, r)
      ensures forall r :: r in now ==> r in was && now[r].data == was[r].data && now[r].prev == was[r].prev
    {
      hide CountsRight, Live, Reaches, Text;
      forall r | r in now ensures Live(was, wasRank, handles, r) { StaysIsLive(was, wasRank, now, rank, handles, r); }
      forall r | r in was && Live(was, wasRank, handles, r)
        ensures r in now
      {
        LiveStays(was, wasRank, now, rank, handles, r);
      }
    }

    static lemma StaysIsLive(was: Parts, wasRank: map<Ref, nat>, now: Parts, rank: map<Ref, nat>,
        handles: multiset<Ref>, r: Ref)
      requires Shrunk(was, wasRank, now, rank) && CountsRight(now, handles) && r in now
      ensures Live(was, wasRank, handles, r)
    {
      hide CountsRight, Reaches, Text;
      EverythingIsLive(now, rank, handles, r);
      var h :| h in handles && h in now && Reaches(now, rank, h, r);
      SameBelow(now, was, rank, wasRank, h);
    }

    static lemma LiveStays(was: Parts, wasRank: map<Ref, nat>, now: Parts, rank: map<Ref, nat>, handles: multiset<Ref>,
        r: Ref)
      requires Shrunk(was, wasRank, now, rank) && (forall h :: h in handles ==> h in now)
      requires Live(was, wasRank, handles, r)
      ensures r in now
    {
      hide Reaches, Text;
      var h :| h in handles && h in was && Reaches(was, wasRank, h, r);
      SameBelow(now, was, rank, wasRank, h);
      ReachedExists(now, rank, h, r);
    }

    static lemma {:induction false} ReachedExists(parts: Parts, rank: map<Ref, nat>, h: Ref, r: Ref)
      requires Ordered(parts, rank) && h in parts && Reaches(parts, rank, h, r)
      ensures r in parts
      decreases rank[h]
    {
      if h != r { ReachedExists(parts, rank, parts[h].prev, r); }
    }

    /** The length of a text, part by part. */
    method TextLength(ref: Ref) returns (size: nat)
      requires Valid() && (ref == 0 || ref in parts)
      ensures size == |Text(parts, rank, ref)|
    {
      hide CountsRight;
      size := 0;
      var cur := ref;
      while cur != 0
        invariant cur == 0 || cur in parts
        invariant size + |Text(parts, rank, cur)| == |Text(parts, rank, ref)|
        decreases if cur == 0 then 0 else rank[cur] + 1
      {
        size := size + |parts[cur].data|;
        cur := parts[cur].prev;
      }
    }

    /**
      `stringRefMemcpy`: the text of a handle followed by a NUL, filled in from the back; a buffer
      that is too small is left alone.  The size needed is returned either way.
     */
    method Memcpy(ref: Ref, buf: array<char>) returns (size: nat)
      requires Valid() && (ref == 0 || ref in parts)
      modifies buf
      ensures size == |Text(parts, rank, ref)| + 1
      ensures size <= buf.Length ==> buf[..size] == Text(parts, rank, ref) + ['\0']
      ensures forall i :: size <= i < buf.Length ==> buf[i] == old(buf[i])
      ensures size > buf.Length ==> buf[..] == old(buf[..])
    {
      hide CountsRight, Text;
      TextDef(parts, rank, ref);
      if ref == 0 {
        if buf.Length > 0 {
          buf[0] := '\0';
        }
        return 1;
      }
      size := TextLength(ref);
      size := size + 1;
      if buf.Length < size {
        return;
      }
      FillBack(ref, buf, size);
      buf[size - 1] := '\0';
    }

    static lemma TextDef(parts: Parts, rank: map<Ref, nat>, r: Ref)
      requires Ordered(parts, rank) && (r == 0 || r in parts)
      ensures Text(parts, rank, r) == if r == 0 then "" else Text(parts, rank, parts[r].prev) + parts[r].data
    {
    }

    /** The second loop of `stringRefMemcpy`: from the tip to the root. */
    method FillBack(ref: Ref, buf: array<char>, size: nat)
      requires Valid() && ref in parts && size == |Text(parts, rank, ref)| + 1 <= buf.Length
      modifies buf
      ensures buf[..size - 1] == Text(parts, rank, ref)
      ensures forall i :: size - 1 <= i < buf.Length ==> buf[i] == old(buf[i])
    {
      hide CountsRight, Text;
      ghost var text := Text(parts, rank, ref);
      var it, cur := 0, ref;
      while cur != 0
        invariant cur == 0 || cur in parts
        invariant 0 <= it <= |text|
        invariant it + |Text(parts, rank, cur)| == |text| && Text(parts, rank, cur) == text[..|text| - it]
        invariant forall i :: |text| - it <= i < |text| ==> buf[i] == text[i]
        invariant forall i :: size - 1 <= i < buf.Length ==> buf[i] == old(buf[i])
        decreases if cur == 0 then 0 else rank[cur] + 1
      {
        TextDef(parts, rank, cur);
        var part := parts[cur];
        it := it + |part.data|;
        var at := size - it - 1;
        forall k | 0 <= k < |part.data| {
          buf[at + k] := part.data[k];
        }
        Piece(text, Text(parts, rank, part.prev), part.data, at);
        cur := part.prev;
      }
      TextDef(parts, rank, 0);
      assert buf[..size - 1] == text;
    }

    static lemma Piece(text: string, head: string, data: string, at: nat)
      requires |head| == at && at + |data| <= |text| && head + data == text[..at + |data|]
      ensures head == text[..at] && forall k :: 0 <= k < |data| ==> text[at + k] == data[k]
    {
      assert head == (head + data)[..at];
      forall k | 0 <= k < |data| ensures text[at + k] == data[k] { assert (head + data)[at + k] == data[k]; }
    }

    /**
      `stringrefMemcpyWithRealloc`: whatever buffer it is given, the buffer it leaves holds the
      whole text and a NUL.
     */
    method MemcpyWithRealloc(ref: Ref, buf: array<char>) returns (out: array<char>)
      requires Valid() && (ref == 0 || ref in parts)
      modifies buf
      ensures out == buf || fresh(out)
      ensures var text := Text(parts, rank, ref); out.Length >= |text| + 1 && out[..|text| + 1] == text + ['\0']
    {
      hide CountsRight, Text;
      for i := 0 to buf.Length {
        buf[i] := '\0';
      }
      var len := Memcpy(ref, buf);
      out := buf;
      if len >= buf.Length {
        out := new char[len];
        var again := Memcpy(ref, out);
      }
    }
  }
}
