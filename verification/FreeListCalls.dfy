/**
  What the calls of the free list come to: a `try_get` comes back empty-handed only if the list
  was empty during the call, and a call that runs alone does just what it is for.
 */
module FreeListCalls {
  import opened FreeList

  // ----- empty-handed

  /** The thread is in a call of `try_get`. */
  predicate InGet(l: Local)
  {
    match l
    case Idle => false
    case AddLoadHead(_, c) => c.ToGet?
    case AddStoreNext(_, _, c) => c.ToGet?
    case AddStoreRefs(_, _, c) => c.ToGet?
    case AddCasHead(_, _, c) => c.ToGet?
    case AddRetract(_, _, c) => c.ToGet?
    case _ => true
  }

  /** The thread is in a call of `try_get` in which the head that it read last was null. */
  predicate SawNull(l: Local)
  {
    match l
    case DropOne(_, hd) => hd == 0
    case AddLoadHead(_, c) => c == ToGet(0)
    case AddStoreNext(_, _, c) => c == ToGet(0)
    case AddStoreRefs(_, _, c) => c == ToGet(0)
    case AddCasHead(_, _, c) => c == ToGet(0)
    case AddRetract(_, _, c) => c == ToGet(0)
    case _ => false
  }

  /** With this step thread `t` leaves `try_get` without a node. */
  ghost predicate ComesBackEmpty(s: State, e: Event, t: Tid)
    requires Typed(s) && Enabled(s, e.t, e.op)
  {
    && t in s.pcs && InGet(s.pcs[t]) && !s.pcs[t].DropTwo?
    && t in Step(s, e.t, e.op).pcs && Step(s, e.t, e.op).pcs[t].Idle?
  }

  /** The list is empty exactly if the head is null. */
  lemma HeadIsNull(s: State)
    requires Inv(s)
    ensures s.head == 0 <==> s.list == []
  {
  }

  /** A thread sees null where the list is empty, and leaves only when it has seen it. */
  lemma NullStep(s: State, e: Event, t: Tid)
    requires Inv(s) && Enabled(s, e.t, e.op) && t in s.pcs
    ensures var s' := Step(s, e.t, e.op);
            && t in s'.pcs
            && (SawNull(s'.pcs[t]) ==> InGet(s.pcs[t]) && (SawNull(s.pcs[t]) || s.list == []))
            && (ComesBackEmpty(s, e, t) ==> SawNull(s.pcs[t]) || s.list == [])
  {
    HeadIsNull(s);
    hide NodeOk, ThreadOk, Chain;
    if t == e.t { OwnStep(s, t, e.op); } else { OthersStep(s, e.t, e.op, t); }
  }

  lemma OwnStep(s: State, t: Tid, op: Op)
    requires Typed(s) && Enabled(s, t, op) && t in s.pcs
    ensures var s' := Step(s, t, op);
            && t in s'.pcs
            && (SawNull(s'.pcs[t]) ==> InGet(s.pcs[t]) && (SawNull(s.pcs[t]) || s.head == 0))
            && (InGet(s.pcs[t]) && !s.pcs[t].DropTwo? && s'.pcs[t].Idle? ==> SawNull(s.pcs[t]) || s.head == 0)
  {
    match s.pcs[t]
    case Idle =>
    case LoadHead =>
    case LoadRefs(_) =>
    case CasRefs(_, _) =>
    case LoadNext(_) =>
    case CasHead(_, _) =>
    case DropTwo(_) =>
    case DropOne(_, _) =>
    case AddLoadHead(_, _) =>
    case AddStoreNext(_, _, _) =>
    case AddStoreRefs(_, _, _) =>
    case AddCasHead(_, _, _) =>
    case AddRetract(_, _, _) =>
  }

  lemma OthersStep(s: State, u: Tid, op: Op, t: Tid)
    requires Typed(s) && Enabled(s, u, op) && t in s.pcs && t != u
    ensures t in Step(s, u, op).pcs && Step(s, u, op).pcs[t] == s.pcs[t]
  {
    match s.pcs[u]
    case Idle =>
    case LoadHead =>
    case LoadRefs(_) =>
    case CasRefs(_, _) =>
    case LoadNext(_) =>
    case CasHead(_, _) =>
    case DropTwo(_) =>
    case DropOne(_, _) =>
    case AddLoadHead(_, _) =>
    case AddStoreNext(_, _, _) =>
    case AddStoreRefs(_, _, _) =>
    case AddCasHead(_, _, _) =>
    case AddRetract(_, _, _) =>
  }

  /** The list is empty in state `k`, and thread `t` is in one call of `try_get` from there to state `i`. */
  ghost predicate EmptyDuring(states: seq<State>, t: Tid, k: int, i: int)
    requires 0 <= k <= i < |states|
  {
    states[k].list == [] && forall m :: k <= m <= i ==> t in states[m].pcs && InGet(states[m].pcs[t])
  }

  lemma {:induction false} SeenDuring(states: seq<State>, events: seq<Event>, t: Tid, i: nat)
    requires IsRun(states, events) && i < |states| && t in states[i].pcs && SawNull(states[i].pcs[t])
    ensures exists k :: 0 <= k <= i && EmptyDuring(states, t, k, i)
  {
    hide Init, Step, InGet, SawNull, ComesBackEmpty, Typed;
    if i == 0 {
      NoneAtStart(states[0], t);
      assert false;
    } else {
      var j := i - 1;
      RunInv(states, events, j);
      assert states[j + 1] == Step(states[j], events[j].t, events[j].op);
      SameThreads(states[j], events[j]);
      NullStep(states[j], events[j], t);
      SawNullInGet(states[i].pcs[t]);
      if SawNull(states[j].pcs[t]) {
        SeenDuring(states, events, t, j);
        var k :| 0 <= k <= j && EmptyDuring(states, t, k, j);
        assert EmptyDuring(states, t, k, i);
      } else {
        assert EmptyDuring(states, t, j, i);
      }
    }
  }

  lemma NoneAtStart(s: State, t: Tid)
    requires Init(s) && t in s.pcs
    ensures !SawNull(s.pcs[t])
  {
  }

  lemma SawNullInGet(l: Local)
    requires SawNull(l)
    ensures InGet(l)
  {
  }

  lemma SameThreads(s: State, e: Event)
    requires Typed(s) && Enabled(s, e.t, e.op)
    ensures Step(s, e.t, e.op).pcs.Keys == s.pcs.Keys
  {
    match s.pcs[e.t]
    case Idle =>
    case LoadHead =>
    case LoadRefs(_) =>
    case CasRefs(_, _) =>
    case LoadNext(_) =>
    case CasHead(_, _) =>
    case DropTwo(_) =>
    case DropOne(_, _) =>
    case AddLoadHead(_, _) =>
    case AddStoreNext(_, _, _) =>
    case AddStoreRefs(_, _, _) =>
    case AddCasHead(_, _, _) =>
    case AddRetract(_, _, _) =>
  }

  /** In every run, a `try_get` that returns null found the list empty at some moment of the call. */
  lemma NullOnlyIfEmpty(states: seq<State>, events: seq<Event>, t: Tid, i: nat)
    requires IsRun(states, events) && i < |events| && Typed(states[i]) && Enabled(states[i], events[i].t, events[i].op)
    requires ComesBackEmpty(states[i], events[i], t)
    ensures exists k :: 0 <= k <= i && EmptyDuring(states, t, k, i)
  {
    hide Init, Step, SawNull, Typed;
    RunInv(states, events, i);
    NullStep(states[i], events[i], t);
    if SawNull(states[i].pcs[t]) {
      SeenDuring(states, events, t, i);
    } else {
      assert EmptyDuring(states, t, i, i);
    }
  }

  // ----- a call that runs alone

  /** `n` steps of thread `t`, which begin a call of `op`, while nobody else moves. */
  ghost function Alone(s: State, t: Tid, op: Op, n: nat): State
  {
    if n == 0 then s
    else
      var before := Alone(s, t, op, n - 1);
      if Typed(before) && Enabled(before, t, op) then Step(before, t, op) else before
  }

  lemma Then(s: State, t: Tid, op: Op, n: nat, now: State)
    requires now == Alone(s, t, op, n)
    ensures Typed(now) && Enabled(now, t, op) ==> Alone(s, t, op, n + 1) == Step(now, t, op)
  {
  }

  lemma {:induction false} AloneInv(s: State, t: Tid, op: Op, n: nat)
    requires Inv(s)
    ensures Inv(Alone(s, t, op, n))
  {
    hide Inv, Enabled, Step;
    if n > 0 {
      AloneInv(s, t, op, n - 1);
      var before := Alone(s, t, op, n - 1);
      if Typed(before) && Enabled(before, t, op) { StepInv(before, t, op); }
    }
  }

  predicate Resting(s: State) { forall t :: t in s.pcs ==> s.pcs[t].Idle? }

  /** What `try_get` has done when it has returned the first node. */
  function Got(s: State, h: Node): State
    requires h in s.refs && h in s.next && |s.list| > 0
  {
    s.(head := s.next[h], refs := s.refs[h := 0], owned := s.owned + {h}, list := s.list[1..],
       phase := s.phase[h := Owned])
  }

  /** What `add` has done. */
  function Added(s: State, n: Node): State
  {
    s.(head := n, next := s.next[n := s.head], refs := s.refs[n := 1], owned := s.owned - {n}, list := [n] + s.list,
       phase := s.phase[n := Listed])
  }

  lemma Put(m: map<Tid, Local>, t: Tid, x: Local, y: Local)
    ensures m[t := x][t := y] == m[t := y]
  {
  }

  lemma Back(m: map<Tid, Local>, t: Tid, x: Local)
    requires t in m && m[t] == Idle
    ensures m[t := x][t := Idle] == m
  {
  }

  /** The facts about the first node of a list at rest. */
  lemma FirstNode(s: State)
    requires Inv(s) && Resting(s) && s.list != []
    ensures var h := s.list[0]; s.head == h && h != 0 && h in s.refs && h in s.next && s.refs[h] == 1
  {
    Quiescent(s);
  }

  /** The first three steps read the head and its count. */
  lemma GetReads(s: State, t: Tid, h: Node)
    requires t in s.pcs && s.pcs[t] == Idle && s.head == h != 0 && h in s.refs && s.refs[h] == 1
    requires forall n: nat :: Typed(Alone(s, t, Get, n))
    ensures Alone(s, t, Get, 3) == s.(pcs := s.pcs[t := CasRefs(h, 1)])
  {
    hide Alone, Typed;
    assert Alone(s, t, Get, 0) == s by { Begin(s, t, Get); }
    Then(s, t, Get, 0, s);
    var s1 := s.(pcs := s.pcs[t := LoadHead]);
    assert Alone(s, t, Get, 1) == s1;
    Then(s, t, Get, 1, s1);
    Put(s.pcs, t, LoadHead, LoadRefs(h));
    var s2 := s.(pcs := s.pcs[t := LoadRefs(h)]);
    assert Alone(s, t, Get, 2) == s2;
    Then(s, t, Get, 2, s2);
    Put(s.pcs, t, LoadRefs(h), CasRefs(h, 1));
  }

  lemma Begin(s: State, t: Tid, op: Op)
    ensures Alone(s, t, op, 0) == s
  {
  }

  /** The next three take a reference and swing the head. */
  lemma GetPops(s: State, t: Tid, h: Node)
    requires t in s.pcs && s.head == h && h in s.refs && h in s.next && s.refs[h] == 1 && s.list != []
    requires Alone(s, t, Get, 3) == s.(pcs := s.pcs[t := CasRefs(h, 1)])
    requires forall n: nat :: Typed(Alone(s, t, Get, n))
    ensures Alone(s, t, Get, 6) ==
            s.(head := s.next[h], refs := s.refs[h := 2], pcs := s.pcs[t := DropTwo(h)], list := s.list[1..],
               phase := s.phase[h := Popping(t)])
  {
    hide Alone, Typed;
    var s3 := s.(pcs := s.pcs[t := CasRefs(h, 1)]);
    Then(s, t, Get, 3, s3);
    Put(s.pcs, t, CasRefs(h, 1), LoadNext(h));
    var s4 := s.(refs := s.refs[h := 2], pcs := s.pcs[t := LoadNext(h)]);
    assert Alone(s, t, Get, 4) == s4;
    Then(s, t, Get, 4, s4);
    Put(s.pcs, t, LoadNext(h), CasHead(h, s.next[h]));
    var s5 := s.(refs := s.refs[h := 2], pcs := s.pcs[t := CasHead(h, s.next[h])]);
    assert Alone(s, t, Get, 5) == s5;
    Then(s, t, Get, 5, s5);
    Put(s.pcs, t, CasHead(h, s.next[h]), DropTwo(h));
  }

  lemma GetReturns(s: State, t: Tid, h: Node)
    requires t in s.pcs && s.pcs[t] == Idle && h in s.refs && h in s.next && s.list != []
    requires Alone(s, t, Get, 6) ==
             s.(head := s.next[h], refs := s.refs[h := 2], pcs := s.pcs[t := DropTwo(h)], list := s.list[1..],
                phase := s.phase[h := Popping(t)])
    requires forall n: nat :: Typed(Alone(s, t, Get, n))
    ensures Alone(s, t, Get, 7) == Got(s, h)
  {
    hide Alone, Typed;
    Then(s, t, Get, 6, Alone(s, t, Get, 6));
    Back(s.pcs, t, DropTwo(h));
    assert s.refs[h := 2][h := 0] == s.refs[h := 0];
    assert s.phase[h := Popping(t)][h := Owned] == s.phase[h := Owned];
  }

  /**
    From rest, a `try_get` alone takes the first node off the list and hands it to its caller; on
    an empty list it changes nothing.
   */
  lemma LoneGet(s: State, t: Tid)
    requires Inv(s) && Resting(s) && t in s.pcs
    ensures s.list != [] ==> s.list[0] in s.refs && s.list[0] in s.next && Alone(s, t, Get, 7) == Got(s, s.list[0])
    ensures s.list == [] ==> Alone(s, t, Get, 2) == s
  {
    hide Inv, Alone, Step, Typed, Got;
    AloneTyped(s, t, Get);
    if s.list != [] {
      FirstNode(s);
      GetReads(s, t, s.list[0]);
      GetPops(s, t, s.list[0]);
      GetReturns(s, t, s.list[0]);
    } else {
      HeadIsNull(s);
      GetMisses(s, t);
    }
  }

  lemma AloneTyped(s: State, t: Tid, op: Op)
    requires Inv(s)
    ensures forall n: nat :: Typed(Alone(s, t, op, n))
  {
    hide Alone, Typed;
    forall n: nat ensures Typed(Alone(s, t, op, n)) { AloneInv(s, t, op, n); }
  }

  lemma GetMisses(s: State, t: Tid)
    requires t in s.pcs && s.pcs[t] == Idle && s.head == 0 && forall n: nat :: Typed(Alone(s, t, Get, n))
    ensures Alone(s, t, Get, 2) == s
  {
    hide Alone, Typed;
    Begin(s, t, Get);
    Then(s, t, Get, 0, s);
    Then(s, t, Get, 1, s.(pcs := s.pcs[t := LoadHead]));
    Back(s.pcs, t, LoadHead);
  }

  /** The `fetch_add` and the load of the head. */
  lemma AddBegins(s: State, t: Tid, n: Node)
    requires t in s.pcs && s.pcs[t] == Idle && n in s.owned && n in s.refs && s.refs[n] == 0
    requires forall k: nat :: Typed(Alone(s, t, Add(n), k))
    ensures Alone(s, t, Add(n), 2) ==
            s.(refs := s.refs[n := SHOULD_BE_ON_FREELIST], owned := s.owned - {n},
               pcs := s.pcs[t := AddStoreNext(n, s.head, ToAdd)], phase := s.phase[n := Adding(t)])
  {
    hide Alone, Typed;
    Begin(s, t, Add(n));
    Then(s, t, Add(n), 0, s);
    var s1 := s.(refs := s.refs[n := SHOULD_BE_ON_FREELIST], owned := s.owned - {n},
                 pcs := s.pcs[t := AddLoadHead(n, ToAdd)], phase := s.phase[n := Adding(t)]);
    assert Alone(s, t, Add(n), 1) == s1;
    Then(s, t, Add(n), 1, s1);
    Put(s.pcs, t, AddLoadHead(n, ToAdd), AddStoreNext(n, s.head, ToAdd));
  }

  /** Storing the link and the count. */
  lemma AddStores(s: State, t: Tid, n: Node)
    requires t in s.pcs && n in s.refs && n in s.next && forall k: nat :: Typed(Alone(s, t, Add(n), k))
    requires Alone(s, t, Add(n), 2) ==
             s.(refs := s.refs[n := SHOULD_BE_ON_FREELIST], owned := s.owned - {n},
                pcs := s.pcs[t := AddStoreNext(n, s.head, ToAdd)], phase := s.phase[n := Adding(t)])
    ensures Alone(s, t, Add(n), 4) ==
            s.(next := s.next[n := s.head], refs := s.refs[n := 1], owned := s.owned - {n},
               pcs := s.pcs[t := AddCasHead(n, s.head, ToAdd)], phase := s.phase[n := Stored(t)])
  {
    hide Alone, Typed;
    Then(s, t, Add(n), 2, Alone(s, t, Add(n), 2));
    var s3 := s.(next := s.next[n := s.head], refs := s.refs[n := SHOULD_BE_ON_FREELIST], owned := s.owned - {n},
                 pcs := s.pcs[t := AddStoreRefs(n, s.head, ToAdd)], phase := s.phase[n := Adding(t)]);
    Put(s.pcs, t, AddStoreNext(n, s.head, ToAdd), AddStoreRefs(n, s.head, ToAdd));
    assert Alone(s, t, Add(n), 3) == s3;
    Then(s, t, Add(n), 3, s3);
    Put(s.pcs, t, AddStoreRefs(n, s.head, ToAdd), AddCasHead(n, s.head, ToAdd));
    assert s.refs[n := SHOULD_BE_ON_FREELIST][n := 1] == s.refs[n := 1];
    assert s.phase[n := Adding(t)][n := Stored(t)] == s.phase[n := Stored(t)];
  }

  lemma AddPublishes(s: State, t: Tid, n: Node)
    requires t in s.pcs && s.pcs[t] == Idle && forall k: nat :: Typed(Alone(s, t, Add(n), k))
    requires Alone(s, t, Add(n), 4) ==
             s.(next := s.next[n := s.head], refs := s.refs[n := 1], owned := s.owned - {n},
                pcs := s.pcs[t := AddCasHead(n, s.head, ToAdd)], phase := s.phase[n := Stored(t)])
    ensures Alone(s, t, Add(n), 5) == Added(s, n)
  {
    hide Alone, Typed;
    Then(s, t, Add(n), 4, Alone(s, t, Add(n), 4));
    Back(s.pcs, t, AddCasHead(n, s.head, ToAdd));
    assert s.phase[n := Stored(t)][n := Listed] == s.phase[n := Listed];
  }

  /** From rest, an `add` alone puts its node in front of the list. */
  lemma LoneAdd(s: State, t: Tid, n: Node)
    requires Inv(s) && Resting(s) && t in s.pcs && n in s.owned && n in s.refs
    ensures Alone(s, t, Add(n), 5) == Added(s, n)
  {
    hide Inv, Alone, Step, Typed, Added;
    AloneTyped(s, t, Add(n));
    NotCounted(s, n);
    AddBegins(s, t, n);
    AddStores(s, t, n);
    AddPublishes(s, t, n);
  }

  lemma NotCounted(s: State, n: Node)
    requires Inv(s) && Resting(s) && n in s.owned && n in s.refs
    ensures s.refs[n] == 0 && n in s.next
  {
    Quiescent(s);
  }

  /** The node that was added last is the one that is given out next, and the list is as before. */
  lemma LastInFirstOut(s: State, t: Tid, u: Tid, n: Node)
    requires Inv(s) && Resting(s) && t in s.pcs && u in s.pcs && n in s.owned && n in s.refs
    ensures var r := Alone(Alone(s, t, Add(n), 5), u, Get, 7);
            r.list == s.list && r.head == s.head && r.owned == s.owned && r.refs == s.refs
  {
    hide Inv, Alone;
    LoneAdd(s, t, n);
    NotCounted(s, n);
    var full := Alone(s, t, Add(n), 5);
    AloneInv(s, t, Add(n), 5);
    LoneGet(full, u);
    assert full.list[1..] == s.list;
    assert s.refs[n := 1][n := 0] == s.refs;
  }
}
