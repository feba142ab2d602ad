/**
  Path parts released by any number of threads at once.  The count of a part is atomic; all
  else about a part changes only before it is handed out and when it is freed.

  A turn of the release loop takes three steps: the decrement, which tells whether the count has
  fallen to zero; the load of the prefix, which comes before that is looked at; and, for the last
  reference, the freeing, after which the thread owes a release of the prefix.  A load by a thread
  that has given up its count may find the part freed, and then yields anything.
 */
module PathReleases {
  import opened PathChain

  type Tid = nat

  /**
    `Dropping` owes a decrement; `Loading` has done it and is about to load the prefix; `Freeing`
    has loaded it as `next` and has the part to itself.
   */
  datatype Local = Idle | Dropping(part: Ref) | Loading(part: Ref, last: bool) | Freeing(part: Ref, next: Ref)

  /** The thread has seen the count of `r` fall to zero. */
  predicate Ends(l: Local, r: Ref) { ((l.Loading? && l.last) || l.Freeing?) && l.part == r }

  /** The thread still has something to give up or to free. */
  predicate Owing(l: Local) { l.Dropping? || (l.Loading? && l.last) || l.Freeing? }

  datatype State = State(parts: Parts, rank: map<Ref, nat>, handles: multiset<Ref>, pcs: map<Tid, Local>)

  /**
    `junk` is what a load yields if the part is no longer there.  `Build` makes a part on a counted reference
    to its prefix, as `Retain` yields it.
   */
  datatype Step =
    | Begin(t: Tid, r: Ref)
    | Decrement(t: Tid)
    | Load(t: Tid, junk: Ref)
    | Free(t: Tid)
    | Retain(r: Ref)
    | Build(cur: Ref, tip: Ref, data: string)

  /** What the callers see to; a decrement and a freeing need the part, a load is done in any case. */
  predicate Enabled(s: State, e: Step)
  {
    match e
    case Begin(t, r) => t in s.pcs && s.pcs[t].Idle? && r in s.handles
    case Decrement(t) => t in s.pcs && s.pcs[t].Dropping? && s.pcs[t].part in s.parts && s.parts[s.pcs[t].part].rc >= 1
    case Load(t, _) => t in s.pcs && s.pcs[t].Loading?
    case Free(t) => t in s.pcs && s.pcs[t].Freeing? && s.pcs[t].part in s.parts
    case Retain(r) => r in s.handles && r in s.parts
    case Build(cur, tip, _) => cur != 0 && cur !in s.parts && (tip == 0 || (tip in s.handles && tip in s.rank))
  }

  function Next(s: State, e: Step): State
    requires Enabled(s, e)
  {
    match e
    case Begin(t, r) => s.(handles := s.handles - multiset{r}, pcs := s.pcs[t := Dropping(r)])
    case Decrement(t) =>
      var r := s.pcs[t].part;
      var rc := s.parts[r].rc;
      s.(parts := WithCount(s.parts, r, rc - 1), pcs := s.pcs[t := Loading(r, rc <= 1)])
    case Load(t, junk) =>
      var r := s.pcs[t].part;
      var prev := if r in s.parts then s.parts[r].prev else junk;
      s.(pcs := s.pcs[t := if s.pcs[t].last then Freeing(r, prev) else Idle])
    case Free(t) =>
      var r, next := s.pcs[t].part, s.pcs[t].next;
      s.(parts := s.parts - {r}, rank := s.rank - {r}, pcs := s.pcs[t := if next == 0 then Idle else Dropping(next)])
    case Retain(r) => s.(parts := WithCount(s.parts, r, s.parts[r].rc + 1), handles := s.handles + multiset{r})
    case Build(cur, tip, data) =>
      s.(parts := s.parts[cur := Part(1, data, tip)], rank := s.rank[cur := if tip == 0 then 0 else s.rank[tip] + 1],
         handles := (if tip == 0 then s.handles else s.handles - multiset{tip}) + multiset{cur})
  }

  // ----- the invariant

  /** The threads that owe a decrement of `r`. */
  function Owed(pcs: map<Tid, Local>, r: Ref): set<Tid> { set t | t in pcs && pcs[t] == Dropping(r) }

  /** A count is the handles, the parts built on it and the decrements owed. */
  ghost predicate PartOk(s: State, r: Ref)
    requires r in s.parts
  {
    && s.parts[r].rc == s.handles[r] + |Children(s.parts, r)| + |Owed(s.pcs, r)|
    && (s.parts[r].rc == 0 ==> exists t :: t in s.pcs && Ends(s.pcs[t], r))
  }

  ghost predicate ThreadOk(s: State, t: Tid)
    requires t in s.pcs
  {
    match s.pcs[t]
    case Idle => true
    case Dropping(r) => r in s.parts
    case Loading(r, last) => last ==> EndsAlone(s, t, r)
    case Freeing(r, next) => EndsAlone(s, t, r) && s.parts[r].prev == next
  }

  /** Thread `t`, and no other, has the part to itself. */
  ghost predicate EndsAlone(s: State, t: Tid, r: Ref)
  {
    r in s.parts && s.parts[r].rc == 0 && forall u :: u in s.pcs && u != t ==> !Ends(s.pcs[u], r)
  }

  ghost predicate Inv(s: State)
  {
    && Ordered(s.parts, s.rank)
    && (forall r :: r in s.handles ==> r in s.parts)
    && (forall r :: r in s.parts ==> PartOk(s, r))
    && (forall t :: t in s.pcs ==> ThreadOk(s, t))
  }

  // ----- every step keeps the invariant

  lemma OwedUpdate(pcs: map<Tid, Local>, t: Tid, l: Local, r: Ref)
    requires t in pcs
    ensures |Owed(pcs[t := l], r)| == |Owed(pcs, r)| - (if pcs[t] == Dropping(r) then 1 else 0) +
            (if l == Dropping(r) then 1 else 0)
  {
    var a, b := Owed(pcs, r), Owed(pcs[t := l], r);
    assert b == (a - {t}) + (if l == Dropping(r) then {t} else {});
  }

  lemma ChildrenOf(parts: Parts, now: Parts, r: Ref)
    requires now.Keys == parts.Keys && forall c :: c in parts ==> now[c].prev == parts[c].prev
    ensures Children(now, r) == Children(parts, r)
  {
  }

  lemma ChildrenWith(parts: Parts, cur: Ref, p: Part, r: Ref)
    requires cur !in parts
    ensures |Children(parts[cur := p], r)| == |Children(parts, r)| + (if p.prev == r then 1 else 0)
  {
    assert Children(parts[cur := p], r) == Children(parts, r) + (if p.prev == r then {cur} else {});
  }

  lemma ChildrenWithout(parts: Parts, cur: Ref, r: Ref)
    requires cur in parts
    ensures |Children(parts - {cur}, r)| == |Children(parts, r)| - (if parts[cur].prev == r then 1 else 0)
  {
    assert Children(parts - {cur}, r) == Children(parts, r) - {cur};
  }

  /** A thread that is freeing a part stays the one that does. */
  lemma StillFreeing(s: State, s': State, t: Tid, r: Ref)
    requires r in s.parts && PartOk(s, r) && s.parts[r].rc == 0 && t in s.pcs && !Ends(s.pcs[t], r)
    requires t in s'.pcs && s'.pcs == s.pcs[t := s'.pcs[t]]
    ensures exists u :: u in s'.pcs && Ends(s'.pcs[u], r)
  {
    var u :| u in s.pcs && Ends(s.pcs[u], r);
    assert Ends(s'.pcs[u], r);
  }

  lemma BeginInv(s: State, e: Step)
    requires Inv(s) && Enabled(s, e) && e.Begin?
    ensures Inv(Next(s, e))
  {
    hide Children, Owed;
    var s' := Next(s, e);
    assert s.handles[e.r] >= 1;
    forall r | r in s'.parts ensures PartOk(s', r) {
      assert PartOk(s, r);
      OwedUpdate(s.pcs, e.t, Dropping(e.r), r);
      if s.parts[r].rc == 0 { StillFreeing(s, s', e.t, r); }
    }
    forall u | u in s'.pcs ensures ThreadOk(s', u) { assert ThreadOk(s, u); assert PartOk(s, e.r); }
  }

  lemma DecrementInv(s: State, e: Step)
    requires Inv(s) && Enabled(s, e) && e.Decrement?
    ensures Inv(Next(s, e))
  {
    hide Children, Owed, PartOk, Ordered, WithCount;
    var s', q := Next(s, e), s.pcs[e.t].part;
    CountOrdered(s.parts, s.rank, q, s.parts[q].rc - 1);
    WithCountOnly(s.parts, q, s.parts[q].rc - 1);
    forall r | r in s'.parts ensures PartOk(s', r) { DecrementPart(s, e.t, r); }
    forall u | u in s'.pcs ensures ThreadOk(s', u) { assert ThreadOk(s, u); }
  }

  lemma DecrementPart(s: State, t: Tid, r: Ref)
    requires Enabled(s, Decrement(t)) && r in s.parts && PartOk(s, r)
    ensures PartOk(Next(s, Decrement(t)), r)
  {
    var s', q := Next(s, Decrement(t)), s.pcs[t].part;
    ChildrenOf(s.parts, s'.parts, r);
    OwedUpdate(s.pcs, t, s'.pcs[t], r);
    hide Children, Owed;
    if s'.parts[r].rc == 0 {
      if r == q { assert Ends(s'.pcs[t], r); } else { StillFreeing(s, s', t, r); }
    }
  }

  lemma LoadInv(s: State, e: Step)
    requires Inv(s) && Enabled(s, e) && e.Load?
    ensures Inv(Next(s, e))
  {
    var s' := Next(s, e);
    assert ThreadOk(s, e.t);
    hide Children, Owed, Ordered, PartOk, ThreadOk;
    forall r | r in s'.parts ensures PartOk(s', r) { LoadPart(s, e.t, e.junk, r); }
    forall u | u in s'.pcs ensures ThreadOk(s', u) { LoadThread(s, e.t, e.junk, u); }
  }

  lemma LoadPart(s: State, t: Tid, junk: Ref, r: Ref)
    requires t in s.pcs && s.pcs[t].Loading? && ThreadOk(s, t) && r in s.parts && PartOk(s, r)
    ensures PartOk(Next(s, Load(t, junk)), r)
  {
    var s' := Next(s, Load(t, junk));
    OwedUpdate(s.pcs, t, s'.pcs[t], r);
    hide Children, Owed;
    if s.parts[r].rc == 0 {
      if Ends(s.pcs[t], r) { assert Ends(s'.pcs[t], r); } else { StillFreeing(s, s', t, r); }
    }
  }

  lemma LoadThread(s: State, t: Tid, junk: Ref, u: Tid)
    requires t in s.pcs && s.pcs[t].Loading? && ThreadOk(s, t) && u in s.pcs && ThreadOk(s, u)
    ensures ThreadOk(Next(s, Load(t, junk)), u)
  {
  }

  /** A part whose count is zero is named by nobody. */
  lemma Unnamed(s: State, q: Ref)
    requires Inv(s) && q in s.parts && s.parts[q].rc == 0
    ensures q !in s.handles && (forall c :: c in s.parts ==> s.parts[c].prev != q)
    ensures forall t :: t in s.pcs ==> s.pcs[t] != Dropping(q)
  {
    assert PartOk(s, q);
    assert Children(s.parts, q) == {} && Owed(s.pcs, q) == {};
    forall c | c in s.parts ensures s.parts[c].prev != q { assert c !in Children(s.parts, q); }
    forall t | t in s.pcs ensures s.pcs[t] != Dropping(q) { assert t !in Owed(s.pcs, q); }
  }

  lemma FreeInv(s: State, e: Step)
    requires Inv(s) && Enabled(s, e) && e.Free?
    ensures Inv(Next(s, e))
  {
    hide Children, Owed, Ordered, PartOk, ThreadOk;
    FreeReady(s, e.t);
    FreeThreads(s, e.t);
    var s' := Next(s, e);
    forall r | r in s'.parts ensures PartOk(s', r) {
      NotNull(s.parts, s.rank, r);
      FreePart(s, s', e.t, r);
    }
  }

  lemma FreeReady(s: State, t: Tid)
    requires Inv(s) && Enabled(s, Free(t))
    ensures var q := s.pcs[t].part;
            && s.pcs[t].next == s.parts[q].prev && Ordered(s.parts - {q}, s.rank - {q}) && q !in s.handles
            && forall u :: u in s.pcs ==> s.pcs[u] != Dropping(q)
  {
    hide Children, Owed, PartOk;
    var q := s.pcs[t].part;
    assert ThreadOk(s, t);
    Unnamed(s, q);
    FreeOrdered(s.parts, s.rank, q);
  }

  lemma FreeThreads(s: State, t: Tid)
    requires Inv(s) && Enabled(s, Free(t)) && forall u :: u in s.pcs ==> s.pcs[u] != Dropping(s.pcs[t].part)
    ensures var s' := Next(s, Free(t)); forall u :: u in s'.pcs ==> ThreadOk(s', u)
  {
    hide Children, Owed, PartOk;
    var s', q := Next(s, Free(t)), s.pcs[t].part;
    assert ThreadOk(s, t);
    FreePrev(s, q);
    hide Ordered;
    forall u | u in s'.pcs ensures ThreadOk(s', u) { assert ThreadOk(s, u); }
  }

  lemma FreeOrdered(parts: Parts, rank: map<Ref, nat>, q: Ref)
    requires Ordered(parts, rank) && q in parts && forall c :: c in parts ==> parts[c].prev != q
    ensures Ordered(parts - {q}, rank - {q})
  {
  }

  lemma NotNull(parts: Parts, rank: map<Ref, nat>, r: Ref)
    requires Ordered(parts, rank) && r in parts
    ensures r != 0
  {
  }

  lemma FreePrev(s: State, q: Ref)
    requires Ordered(s.parts, s.rank) && q in s.parts
    ensures s.parts[q].prev != 0 ==> s.parts[q].prev in s.parts && s.parts[q].prev != q
  {
  }

  lemma FreePart(s: State, s': State, t: Tid, r: Ref)
    requires t in s.pcs && s.pcs[t].Freeing? && s.pcs[t].part in s.parts && r in s.parts && r != s.pcs[t].part
    requires PartOk(s, r) && r != 0 && s.pcs[t].next == s.parts[s.pcs[t].part].prev
    requires s' == Next(s, Free(t))
    ensures PartOk(s', r)
  {
    var q := s.pcs[t].part;
    ChildrenWithout(s.parts, q, r);
    OwedUpdate(s.pcs, t, s'.pcs[t], r);
    hide Children, Owed;
    if s.parts[r].rc == 0 { StillFreeing(s, s', t, r); }
  }

  lemma CountOrdered(parts: Parts, rank: map<Ref, nat>, r: Ref, rc: nat)
    requires Ordered(parts, rank) && r in parts
    ensures Ordered(WithCount(parts, r, rc), rank)
  {
  }

  lemma WithCountOnly(parts: Parts, r: Ref, rc: nat)
    requires r in parts
    ensures var now := WithCount(parts, r, rc);
            now.Keys == parts.Keys && now[r].rc == rc && forall c :: c in parts && c != r ==> now[c] == parts[c]
  {
  }

  lemma RetainInv(s: State, e: Step)
    requires Inv(s) && Enabled(s, e) && e.Retain?
    ensures Inv(Next(s, e))
  {
    hide Children, Owed, PartOk, Ordered, WithCount;
    CountOrdered(s.parts, s.rank, e.r, s.parts[e.r].rc + 1);
    var s' := Next(s, e);
    WithCountOnly(s.parts, e.r, s.parts[e.r].rc + 1);
    assert s.handles[e.r] >= 1 && PartOk(s, e.r);
    forall r | r in s'.parts ensures PartOk(s', r) { RetainPart(s, e.r, r); }
    forall u | u in s'.pcs ensures ThreadOk(s', u) {
      assert ThreadOk(s, u);
      CountPositive(s, e.r);
    }
  }

  lemma CountPositive(s: State, r: Ref)
    requires r in s.parts && PartOk(s, r) && s.handles[r] >= 1
    ensures s.parts[r].rc >= 1
  {
  }

  lemma RetainPart(s: State, q: Ref, r: Ref)
    requires Enabled(s, Retain(q)) && r in s.parts && PartOk(s, r)
    ensures PartOk(Next(s, Retain(q)), r)
  {
    ChildrenOf(s.parts, Next(s, Retain(q)).parts, r);
    hide Children, Owed;
  }

  lemma BuildInv(s: State, e: Step)
    requires Inv(s) && Enabled(s, e) && e.Build?
    ensures Inv(Next(s, e))
  {
    var s' := Next(s, e);
    NewIsUnnamed(s, e.cur);
    BuildOrdered(s, e);
    BuildThreads(s, e);
    hide Children, Owed, Ordered, PartOk, ThreadOk;
    forall r | r in s'.parts ensures PartOk(s', r) {
      if r != e.cur { NotNull(s.parts, s.rank, r); }
      BuildPart(s, e, r);
    }
  }

  lemma BuildThreads(s: State, e: Step)
    requires Inv(s) && Enabled(s, e) && e.Build?
    ensures var s' := Next(s, e); forall u :: u in s'.pcs ==> ThreadOk(s', u)
  {
    hide Children, Owed, PartOk, Ordered;
    var s' := Next(s, e);
    forall u | u in s'.pcs ensures ThreadOk(s', u) { assert ThreadOk(s, u); }
  }

  lemma NewIsUnnamed(s: State, cur: Ref)
    requires Inv(s) && cur !in s.parts && cur != 0
    ensures Children(s.parts, cur) == {} && Owed(s.pcs, cur) == {} && cur !in s.handles
  {
    forall t | t in s.pcs ensures s.pcs[t] != Dropping(cur) { assert ThreadOk(s, t); }
  }

  lemma BuildOrdered(s: State, e: Step)
    requires Ordered(s.parts, s.rank) && Enabled(s, e) && e.Build? && (e.tip != 0 ==> e.tip in s.parts)
    ensures Ordered(Next(s, e).parts, Next(s, e).rank)
  {
  }

  lemma BuildPart(s: State, e: Step, r: Ref)
    requires Enabled(s, e) && e.Build? && (r == e.cur || (r in s.parts && PartOk(s, r)))
    requires Children(s.parts, e.cur) == {} && Owed(s.pcs, e.cur) == {} && e.cur !in s.handles
    requires (e.tip != 0 ==> e.tip in s.handles && e.tip != e.cur)
    requires r != 0
    ensures PartOk(Next(s, e), r)
  {
    ChildrenWith(s.parts, e.cur, Part(1, e.data, e.tip), r);
    hide Children, Owed;
  }

  /** Every step of every thread keeps the counts right and every part freed once. */
  lemma StepInv(s: State, e: Step)
    requires Inv(s) && Enabled(s, e)
    ensures Inv(Next(s, e))
  {
    hide Inv, Enabled, Next;
    match e
    case Begin(_, _) => BeginInv(s, e);
    case Decrement(_) => DecrementInv(s, e);
    case Load(_, _) => LoadInv(s, e);
    case Free(_) => FreeInv(s, e);
    case Retain(_) => RetainInv(s, e);
    case Build(_, _, _) => BuildInv(s, e);
  }

  // ----- whole runs

  ghost predicate Goes(s: State, e: Step, s': State) { Enabled(s, e) && s' == Next(s, e) }

  ghost predicate IsRun(states: seq<State>, steps: seq<Step>)
  {
    && |states| == |steps| + 1 && states[0].parts == map[] && states[0].rank == map[] && states[0].handles == multiset{}
    && (forall t :: t in states[0].pcs ==> states[0].pcs[t].Idle?)
    && forall i :: 0 <= i < |steps| ==> Goes(states[i], steps[i], states[i + 1])
  }

  lemma {:induction false} RunInv(states: seq<State>, steps: seq<Step>, i: nat)
    requires IsRun(states, steps) && i < |states|
    ensures Inv(states[i])
  {
    hide Enabled, Next;
    if i > 0 {
      RunInv(states, steps, i - 1);
      var k := i - 1;
      assert Goes(states[k], steps[k], states[k + 1]);
      hide Inv;
      StepInv(states[k], steps[k]);
    }
  }

  /** A thread in the middle of a release finds the part that it decrements, ends or frees, and a positive count. */
  lemma ReleaseIsDefined(s: State, t: Tid)
    requires Inv(s) && t in s.pcs
    ensures s.pcs[t].Dropping? ==> Enabled(s, Decrement(t))
    ensures s.pcs[t].Loading? && s.pcs[t].last ==> s.pcs[t].part in s.parts
    ensures s.pcs[t].Freeing? ==> Enabled(s, Free(t)) && s.pcs[t].next == s.parts[s.pcs[t].part].prev
  {
    assert ThreadOk(s, t);
    if s.pcs[t].Dropping? {
      var r := s.pcs[t].part;
      assert PartOk(s, r) && t in Owed(s.pcs, r);
    }
  }

  /** What a load of a freed part yields makes no difference to anything. */
  lemma JunkIsUnused(s: State, t: Tid, junk: Ref, other: Ref)
    requires Inv(s) && t in s.pcs && s.pcs[t].Loading?
    ensures Next(s, Load(t, junk)) == Next(s, Load(t, other))
  {
    assert ThreadOk(s, t);
  }

  /** Whoever holds a handle, and goes on holding it, reads the same text, whatever other threads release. */
  lemma HeldTextStays(s: State, e: Step, h: Ref)
    requires Inv(s) && Enabled(s, e) && h in s.handles && h in Next(s, e).handles
    ensures var s' := Next(s, e);
            && Ordered(s.parts, s.rank) && Ordered(s'.parts, s'.rank) && h in s.parts && h in s'.parts
            && Text(s'.parts, s'.rank, h) == Text(s.parts, s.rank, h)
  {
    StepInv(s, e);
    var s' := Next(s, e);
    SameData(s, e);
    hide Next, PartOk, Text, Reaches;
    SameBelow(s'.parts, s.parts, s'.rank, s.rank, h);
  }

  lemma SameData(s: State, e: Step)
    requires Enabled(s, e)
    ensures var s' := Next(s, e);
            forall r :: r in s.parts && r in s'.parts ==>
                s.parts[r].data == s'.parts[r].data && s.parts[r].prev == s'.parts[r].prev
  {
  }

  /** With no release in progress, exactly the parts that some handle reaches are there. */
  lemma AtRest(s: State, r: Ref)
    requires Inv(s) && forall t :: t in s.pcs ==> !Owing(s.pcs[t])
    ensures Ordered(s.parts, s.rank) && (r in s.parts <==> Live(s.parts, s.rank, s.handles, r))
  {
    forall q | q in s.parts ensures s.parts[q].rc == s.handles[q] + |Children(s.parts, q)| && s.parts[q].rc >= 1 {
      assert PartOk(s, q) && Owed(s.pcs, q) == {};
    }
    if r in s.parts {
      EverythingIsLive(s.parts, s.rank, s.handles, r);
    } else if h :| h in s.handles && h in s.parts && Reaches(s.parts, s.rank, h, r) {
      Store.ReachedExists(s.parts, s.rank, h, r);
    }
  }

  /** When the last handle has been released and all threads are done, nothing is left. */
  lemma NothingLeft(s: State)
    requires Inv(s) && s.handles == multiset{} && forall t :: t in s.pcs ==> !Owing(s.pcs[t])
    ensures s.parts == map[]
  {
    if r :| r in s.parts { AtRest(s, r); }
  }

  // ----- the load after a decrement

  /** A step of somebody else that leaves the handles of `keep` held. */
  ghost predicate Move(s: State, e: Step, s': State, t: Tid, keep: set<Ref>)
  {
    Goes(s, e, s') && (e.Build? || e.Retain? || e.t != t) && forall h :: h in keep ==> h in s'.handles
  }

  /** `s'` is reached from `s` in `n` steps of others, the handles of `keep` being held throughout. */
  ghost predicate Follows(s: State, s': State, t: Tid, keep: set<Ref>, n: nat)
    decreases n
  {
    if n == 0 then s' == s else exists e, mid :: Move(s, e, mid, t, keep) && Follows(mid, s', t, keep, n - 1)
  }

  /** However the others go on, thread `t` finds part `r` when it gets to its next step. */
  ghost predicate StaysFor(s: State, t: Tid, keep: set<Ref>, r: Ref)
  {
    forall s', n: nat :: Follows(s, s', t, keep, n) ==> r in s'.parts
  }

  ghost predicate Held(s: State, keep: set<Ref>) { forall h :: h in keep ==> h in s.handles }

  ghost predicate ReachesPart(s: State, h: Ref, r: Ref)
  {
    Ordered(s.parts, s.rank) && h in s.parts && Reaches(s.parts, s.rank, h, r)
  }

  /** Some handle of `keep` reaches part `r`. */
  ghost predicate Reached(s: State, keep: set<Ref>, r: Ref)
  {
    exists h :: h in keep && ReachesPart(s, h, r)
  }

  lemma MoveLeaves(s: State, e: Step, s': State, t: Tid, keep: set<Ref>)
    requires Move(s, e, s', t, keep) && t in s.pcs
    ensures t in s'.pcs && s'.pcs[t] == s.pcs[t] && s'.pcs.Keys == s.pcs.Keys && Held(s', keep)
    ensures s.pcs.Keys == {t} ==> s.parts.Keys <= s'.parts.Keys
  {
  }

  lemma MoveInv(s: State, e: Step, s': State, t: Tid, keep: set<Ref>)
    requires Inv(s) && Move(s, e, s', t, keep)
    ensures Inv(s')
  {
    hide Inv, Next, Enabled;
    StepInv(s, e);
  }

  lemma {:induction false} LastStays(s: State, s': State, t: Tid, keep: set<Ref>, n: nat, r: Ref)
    requires Inv(s) && Follows(s, s', t, keep, n) && t in s.pcs && s.pcs[t] == Loading(r, true)
    ensures r in s'.parts
    decreases n
  {
    hide Inv, Move;
    if n == 0 {
      ReleaseIsDefined(s, t);
    } else {
      var e, mid :| Move(s, e, mid, t, keep) && Follows(mid, s', t, keep, n - 1);
      MoveLeaves(s, e, mid, t, keep);
      MoveInv(s, e, mid, t, keep);
      LastStays(mid, s', t, keep, n - 1, r);
    }
  }

  lemma {:induction false} AloneStays(s: State, s': State, t: Tid, keep: set<Ref>, n: nat, r: Ref)
    requires Follows(s, s', t, keep, n) && s.pcs.Keys == {t} && r in s.parts
    ensures r in s'.parts
    decreases n
  {
    hide Move;
    if n > 0 {
      var e, mid :| Move(s, e, mid, t, keep) && Follows(mid, s', t, keep, n - 1);
      MoveLeaves(s, e, mid, t, keep);
      AloneStays(mid, s', t, keep, n - 1, r);
    }
  }

  lemma MoveReaches(s: State, e: Step, s': State, t: Tid, keep: set<Ref>, h: Ref, r: Ref)
    requires Inv(s) && Move(s, e, s', t, keep) && h in keep && h in s.handles && ReachesPart(s, h, r)
    ensures Inv(s') && ReachesPart(s', h, r)
  {
    MoveInv(s, e, s', t, keep);
    SameData(s, e);
    hide PartOk, ThreadOk, Next, Enabled, Reaches;
    SameBelow(s'.parts, s.parts, s'.rank, s.rank, h);
  }

  lemma PartReached(s: State, h: Ref, r: Ref)
    requires ReachesPart(s, h, r)
    ensures r in s.parts
  {
    Store.ReachedExists(s.parts, s.rank, h, r);
  }

  lemma {:induction false} ReachedStays(s: State, s': State, t: Tid, keep: set<Ref>, n: nat, h: Ref, r: Ref)
    requires Inv(s) && Follows(s, s', t, keep, n) && Held(s, keep) && t in s.pcs && h in keep && ReachesPart(s, h, r)
    ensures r in s'.parts
    decreases n
  {
    hide ReachesPart, Inv, Move;
    if n == 0 {
      PartReached(s, h, r);
    } else {
      var e, mid :| Move(s, e, mid, t, keep) && Follows(mid, s', t, keep, n - 1);
      MoveReaches(s, e, mid, t, keep, h, r);
      MoveLeaves(s, e, mid, t, keep);
      ReachedStays(mid, s', t, keep, n - 1, h, r);
    }
  }

  lemma {:induction false} FollowsTrans(s: State, mid: State, s': State, t: Tid, keep: set<Ref>, m: nat, n: nat)
    requires Follows(s, mid, t, keep, m) && Follows(mid, s', t, keep, n)
    ensures Follows(s, s', t, keep, m + n)
    decreases m
  {
    hide Move;
    if m > 0 {
      var e, next :| Move(s, e, next, t, keep) && Follows(next, mid, t, keep, m - 1);
      FollowsTrans(next, mid, s', t, keep, m - 1, n);
      assert m + n - 1 == m - 1 + n;
    }
  }

  lemma FollowsStep(s: State, e: Step, mid: State, s': State, t: Tid, keep: set<Ref>, n: nat)
    requires Move(s, e, mid, t, keep) && Follows(mid, s', t, keep, n)
    ensures Follows(s, s', t, keep, n + 1)
  {
  }

  /** Parts have gone, and nothing else has happened to them. */
  ghost predicate Fewer(s: State, s': State)
  {
    forall q :: q in s'.parts ==>
        q in s.parts && s'.parts[q].prev == s.parts[q].prev && s'.parts[q].data == s.parts[q].data
  }

  function Phase(l: Local): nat
  {
    match l
    case Idle => 0
    case Freeing(_, _) => 1
    case Loading(_, _) => 2
    case Dropping(_) => 3
  }

  /** Another thread can always finish the release that it has begun. */
  lemma {:induction false} FinishThread(s: State, t: Tid, keep: set<Ref>, u: Tid) returns (s': State, n: nat)
    requires Inv(s) && Held(s, keep) && u in s.pcs && u != t
    ensures Follows(s, s', t, keep, n) && Inv(s') && Fewer(s, s')
    ensures s'.pcs == s.pcs[u := Idle] && s'.handles == s.handles
    decreases |s.parts|, Phase(s.pcs[u])
  {
    hide Inv, Next, Move, Follows;
    if s.pcs[u].Idle? {
      s', n := s, 0;
      NoSteps(s, t, keep);
      assert s.pcs[u := Idle] == s.pcs;
      return;
    }
    ReleaseIsDefined(s, u);
    var e := if s.pcs[u].Dropping? then Decrement(u) else if s.pcs[u].Loading? then Load(u, 0) else Free(u);
    var mid := Next(s, e);
    OwnStep(s, t, keep, u, e);
    StepInv(s, e);
    s', n := FinishThread(mid, t, keep, u);
    FollowsStep(s, e, mid, s', t, keep, n);
    n := n + 1;
  }

  lemma NoSteps(s: State, t: Tid, keep: set<Ref>)
    ensures Follows(s, s, t, keep, 0)
  {
  }

  lemma OwnStep(s: State, t: Tid, keep: set<Ref>, u: Tid, e: Step)
    requires Held(s, keep) && u != t && Enabled(s, e) && (e.Decrement? || e.Load? || e.Free?) && e.t == u
    ensures var s' := Next(s, e);
            && Move(s, e, s', t, keep) && Held(s', keep) && Fewer(s, s') && s'.handles == s.handles
            && u in s'.pcs && s'.pcs[u := Idle] == s.pcs[u := Idle]
            && |s'.parts| <= |s.parts| && (|s'.parts| < |s.parts| || Phase(s'.pcs[u]) < Phase(s.pcs[u]))
  {
    if e.Decrement? {
      assert Next(s, e).parts.Keys == s.parts.Keys;
      assert |Next(s, e).parts| == |Next(s, e).parts.Keys| == |s.parts|;
    } else if e.Free? {
      var q := s.pcs[u].part;
      assert Next(s, e).parts.Keys == s.parts.Keys - {q};
      assert |Next(s, e).parts| == |Next(s, e).parts.Keys| < |s.parts.Keys| == |s.parts|;
    }
  }

  lemma {:induction false} FinishOthers(s: State, t: Tid, keep: set<Ref>, todo: set<Tid>) returns (s': State, n: nat)
    requires Inv(s) && Held(s, keep) && t !in todo && todo <= s.pcs.Keys
    ensures Follows(s, s', t, keep, n) && Inv(s') && Fewer(s, s') && s'.handles == s.handles
    ensures s'.pcs.Keys == s.pcs.Keys
    ensures forall u :: u in s.pcs ==> s'.pcs[u] == if u in todo then Idle else s.pcs[u]
    decreases todo
  {
    hide Inv, Next, Move, Follows;
    if todo == {} {
      s', n := s, 0;
      NoSteps(s, t, keep);
      return;
    }
    var u :| u in todo;
    var mid, m := FinishThread(s, t, keep, u);
    s', n := FinishOthers(mid, t, keep, todo - {u});
    FollowsTrans(s, mid, s', t, keep, m, n);
    n := m + n;
  }

  /** Another thread can give up all handles but those of `keep`, one by one. */
  lemma {:induction false} ReleaseOthers(s: State, t: Tid, keep: set<Ref>, u: Tid) returns (s': State, n: nat)
    requires Inv(s) && Held(s, keep) && u in s.pcs && u != t && s.pcs[u].Idle?
    ensures Follows(s, s', t, keep, n) && Inv(s') && Fewer(s, s')
    ensures s'.pcs == s.pcs && forall h :: h in s'.handles ==> h in keep
    decreases |s.handles|
  {
    hide Inv, Next, Move, Follows;
    if forall h :: h in s.handles ==> h in keep {
      s', n := s, 0;
      NoSteps(s, t, keep);
      return;
    }
    var h :| h in s.handles && h !in keep;
    var begun := Next(s, Begin(u, h));
    BeginStep(s, t, keep, u, h);
    StepInv(s, Begin(u, h));
    var mid, m := FinishThread(begun, t, keep, u);
    FollowsStep(s, Begin(u, h), begun, mid, t, keep, m);
    s', n := ReleaseOthers(mid, t, keep, u);
    FollowsTrans(s, mid, s', t, keep, m + 1, n);
    n := m + 1 + n;
  }

  lemma BeginStep(s: State, t: Tid, keep: set<Ref>, u: Tid, h: Ref)
    requires Held(s, keep) && u in s.pcs && u != t && s.pcs[u].Idle? && h in s.handles && h !in keep
    ensures var s' := Next(s, Begin(u, h));
            && Move(s, Begin(u, h), s', t, keep) && Held(s', keep) && Fewer(s, s') && |s'.handles| < |s.handles|
            && u in s'.pcs && s'.pcs[u := Idle] == s.pcs
  {
    var s' := Next(s, Begin(u, h));
    assert s.handles == s'.handles + multiset{h};
  }

  /** A continuation in which the others free all that they can. */
  lemma OthersFree(s: State, t: Tid, keep: set<Ref>, u: Tid, r: Ref) returns (s': State, n: nat)
    requires Inv(s) && Held(s, keep) && t in s.pcs && !Owing(s.pcs[t]) && u in s.pcs && u != t && !Reached(s, keep, r)
    ensures Follows(s, s', t, keep, n) && r !in s'.parts
  {
    hide Inv, Follows, Reached, Fewer;
    var mid, m := FinishOthers(s, t, keep, s.pcs.Keys - {t});
    assert Held(mid, keep);
    s', n := ReleaseOthers(mid, t, keep, u);
    FollowsTrans(s, mid, s', t, keep, m, n);
    n := m + n;
    FewerTrans(s, mid, s');
    NotReached(s, s', keep, r);
  }

  lemma FewerTrans(s: State, mid: State, s': State)
    requires Fewer(s, mid) && Fewer(mid, s')
    ensures Fewer(s, s')
  {
  }

  lemma NotReached(s: State, s': State, keep: set<Ref>, r: Ref)
    requires Inv(s) && Inv(s') && Fewer(s, s') && (forall h :: h in s'.handles ==> h in keep) && !Reached(s, keep, r)
    requires forall t :: t in s'.pcs ==> !Owing(s'.pcs[t])
    ensures r !in s'.parts
  {
    hide PartOk, ThreadOk, Reaches;
    if r in s'.parts {
      StillReached(s, s', keep, r);
      assert false;
    }
  }

  lemma StillReached(s: State, s': State, keep: set<Ref>, r: Ref)
    requires Inv(s) && Inv(s') && Fewer(s, s') && (forall h :: h in s'.handles ==> h in keep)
    requires r in s'.parts && forall t :: t in s'.pcs ==> !Owing(s'.pcs[t])
    ensures Reached(s, keep, r)
  {
    hide PartOk, ThreadOk, Reaches;
    AtRest(s', r);
    var h :| h in s'.handles && h in s'.parts && Reaches(s'.parts, s'.rank, h, r);
    SameBelow(s'.parts, s.parts, s'.rank, s.rank, h);
  }

  /**
    When the load after a decrement is certain to find its part, provided that the handles of
    `keep` are held throughout: exactly if the decrement was the last one, or there is no other
    thread, or one of those handles reaches the part.
   */
  lemma LoadFindsPartIff(s: State, t: Tid, keep: set<Ref>)
    requires Inv(s) && Held(s, keep) && t in s.pcs && s.pcs[t].Loading? && s.pcs[t].part in s.parts
    ensures var r := s.pcs[t].part;
            StaysFor(s, t, keep, r) <==> s.pcs[t].last || s.pcs.Keys == {t} || Reached(s, keep, r)
  {
    hide Inv, Follows, ReachesPart;
    var r := s.pcs[t].part;
    if s.pcs[t].last || s.pcs.Keys == {t} || Reached(s, keep, r) {
      forall s', n: nat | Follows(s, s', t, keep, n) ensures r in s'.parts {
        if s.pcs[t].last {
          LastStays(s, s', t, keep, n, r);
        } else if s.pcs.Keys == {t} {
          AloneStays(s, s', t, keep, n, r);
        } else {
          var h :| h in keep && ReachesPart(s, h, r);
          ReachedStays(s, s', t, keep, n, h, r);
        }
      }
    } else {
      var u :| u in s.pcs && u != t;
      var s', n := OthersFree(s, t, keep, u, r);
    }
  }

  /** Part 7 with count `rc`, `held` handles on it, and two threads. */
  function Seven(rc: nat, held: nat, a: Local, b: Local): State
  {
    State(map[7 := Part(rc, "x", 0)], map[7 := 0], multiset{}[7 := held], map[0 := a, 1 := b])
  }

  function Nothing(a: Local, b: Local): State { State(map[], map[], multiset{}, map[0 := a, 1 := b]) }

  lemma SevenBuilt()
    ensures Goes(Nothing(Idle, Idle), Build(7, 0, "x"), Seven(1, 1, Idle, Idle))
    ensures Goes(Seven(1, 1, Idle, Idle), Retain(7), Seven(2, 2, Idle, Idle))
  {
    assert multiset{} + multiset{7} == multiset{}[7 := 1];
    assert multiset{}[7 := 1] + multiset{7} == multiset{}[7 := 2];
    assert map[7 := Part(1, "x", 0)][7 := Part(2, "x", 0)] == map[7 := Part(2, "x", 0)];
  }

  lemma SevenBegun()
    ensures Goes(Seven(2, 2, Idle, Idle), Begin(0, 7), Seven(2, 1, Dropping(7), Idle))
    ensures Goes(Seven(2, 1, Dropping(7), Idle), Begin(1, 7), Seven(2, 0, Dropping(7), Dropping(7)))
  {
    assert multiset{}[7 := 2] - multiset{7} == multiset{}[7 := 1];
    assert multiset{}[7 := 1] - multiset{7} == multiset{}[7 := 0];
    assert map[0 := Idle, 1 := Idle][0 := Dropping(7)] == map[0 := Dropping(7), 1 := Idle];
    assert map[0 := Dropping(7), 1 := Idle][1 := Dropping(7)] == map[0 := Dropping(7), 1 := Dropping(7)];
  }

  lemma SevenDropped()
    ensures Goes(Seven(2, 0, Dropping(7), Dropping(7)), Decrement(0), Seven(1, 0, Loading(7, false), Dropping(7)))
    ensures Goes(Seven(1, 0, Loading(7, false), Dropping(7)), Decrement(1),
            Seven(0, 0, Loading(7, false), Loading(7, true)))
  {
    var a, b := Loading(7, false), Loading(7, true);
    assert map[7 := Part(2, "x", 0)][7 := Part(1, "x", 0)] == map[7 := Part(1, "x", 0)];
    assert map[7 := Part(1, "x", 0)][7 := Part(0, "x", 0)] == map[7 := Part(0, "x", 0)];
    assert map[0 := Dropping(7), 1 := Dropping(7)][0 := a] == map[0 := a, 1 := Dropping(7)];
    assert map[0 := a, 1 := Dropping(7)][1 := b] == map[0 := a, 1 := b];
  }

  lemma SevenFreed()
    ensures Goes(Seven(0, 0, Loading(7, false), Loading(7, true)), Load(1, 0),
            Seven(0, 0, Loading(7, false), Freeing(7, 0)))
    ensures Goes(Seven(0, 0, Loading(7, false), Freeing(7, 0)), Free(1), Nothing(Loading(7, false), Idle))
  {
    var a := Loading(7, false);
    assert map[0 := a, 1 := Loading(7, true)][1 := Freeing(7, 0)] == map[0 := a, 1 := Freeing(7, 0)];
    assert map[0 := a, 1 := Freeing(7, 0)][1 := Idle] == map[0 := a, 1 := Idle];
    assert map[7 := Part(0, "x", 0)] - {7} == map[] && map[7 := 0 as Ref] - {7} == map[];
    assert multiset{}[7 := 0] == multiset{};
  }

  /** Two threads release two references to one part, and one of them is to load from it when it is gone. */
  lemma LoadAfterFree() returns (states: seq<State>, steps: seq<Step>)
    ensures IsRun(states, steps)
    ensures var s := states[|steps|]; 0 in s.pcs && s.pcs[0] == Loading(7, false) && 7 !in s.parts
  {
    SevenBuilt();
    SevenBegun();
    SevenDropped();
    SevenFreed();
    hide Goes, Seven;
    steps := [Build(7, 0, "x"), Retain(7), Begin(0, 7), Begin(1, 7), Decrement(0), Decrement(1), Load(1, 0), Free(1)];
    var a := Loading(7, false);
    states := [Nothing(Idle, Idle), Seven(1, 1, Idle, Idle), Seven(2, 2, Idle, Idle), Seven(2, 1, Dropping(7), Idle),
               Seven(2, 0, Dropping(7), Dropping(7)), Seven(1, 0, a, Dropping(7)), Seven(0, 0, a, Loading(7, true)),
               Seven(0, 0, a, Freeing(7, 0)), Nothing(a, Idle)];
  }
}
