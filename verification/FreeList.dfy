/**
  The reference-counted lock-free free list, as interleaved atomic steps of any number of
  threads (sequential consistency).

  Each thread's program counter says which atomic access it performs next.  `phase`, `list`
  and `owned` are bookkeeping: they record where a node is and are written, never read, by
  the steps; `owned` are the nodes in the hands of callers.
 */
module FreeList {
  import opened Cardinality

  const SHOULD_BE_ON_FREELIST := 0x8000_0000
  const WORD32 := 0x1_0000_0000

  /** Node numbers; 0 is the null pointer. */
  type Node = nat
  type Tid = nat

  /** Where `add_knowing_refcount_is_zero` returns to: `add`, or the loop of `try_get`. */
  datatype Cont = ToAdd | ToGet(head: Node)

  datatype Local =
    | Idle
    | LoadHead
    | LoadRefs(h: Node)
    | CasRefs(h: Node, refs: nat)
    | LoadNext(h: Node)
    | CasHead(h: Node, next: Node)
    | DropTwo(h: Node)
    | DropOne(h: Node, head: Node)
    | AddLoadHead(n: Node, c: Cont)
    | AddStoreNext(n: Node, head: Node, c: Cont)
    | AddStoreRefs(n: Node, head: Node, c: Cont)
    | AddCasHead(n: Node, head: Node, c: Cont)
    | AddRetract(n: Node, head: Node, c: Cont)

  /** What becomes of a node. */
  datatype Phase =
    | Owned                // in a caller's hands
    | Listed               // on the list
    | Popping(t: Tid)      // taken off by `t`, which still has to drop two references
    | Limbo                // marked should-be-on-freelist while others hold references
    | Adding(t: Tid)       // unreferenced, `t` is about to store its links
    | Stored(t: Tid)       // `t` stored its links and count and tries to publish it

  datatype Op = Add(node: Node) | Get

  datatype State = State(
    head: Node, next: map<Node, Node>, refs: map<Node, nat>, pcs: map<Tid, Local>,
    owned: set<Node>, list: seq<Node>, phase: map<Node, Phase>)

  function Plus(a: nat, b: nat): nat { (a + b) % WORD32 }

  function Minus(a: nat, b: nat): nat
    requires b <= WORD32
  {
    (a + WORD32 - b) % WORD32
  }

  /** The loop test of `try_get`. */
  function Loop(head: Node): Local { if head == 0 then Idle else LoadRefs(head) }

  function Return(c: Cont): Local { match c case ToAdd => Idle case ToGet(head) => Loop(head) }

  /** Every pointer a thread follows names an existing node. */
  predicate LocalOk(nodes: set<Node>, l: Local)
  {
    match l
    case Idle => true
    case LoadHead => true
    case LoadRefs(h) => h in nodes
    case CasRefs(h, r) => h in nodes && r % SHOULD_BE_ON_FREELIST != 0
    case LoadNext(h) => h in nodes
    case CasHead(h, _) => h in nodes
    case DropTwo(h) => h in nodes
    case DropOne(h, hd) => h in nodes && (hd == 0 || hd in nodes)
    case AddLoadHead(n, c) => n in nodes && ContOk(nodes, c)
    case AddStoreNext(n, hd, c) => n in nodes && (hd == 0 || hd in nodes) && ContOk(nodes, c)
    case AddStoreRefs(n, hd, c) => n in nodes && (hd == 0 || hd in nodes) && ContOk(nodes, c)
    case AddCasHead(n, hd, c) => n in nodes && (hd == 0 || hd in nodes) && ContOk(nodes, c)
    case AddRetract(n, hd, c) => n in nodes && (hd == 0 || hd in nodes) && ContOk(nodes, c)
  }

  predicate ContOk(nodes: set<Node>, c: Cont) { c.ToGet? && c.head != 0 ==> c.head in nodes }

  /** The memory is well formed. */
  predicate Typed(s: State)
  {
    && s.refs.Keys == s.next.Keys == s.phase.Keys && 0 !in s.refs.Keys
    && (s.head == 0 || s.head in s.refs)
    && (forall n :: n in s.next ==> s.next[n] == 0 || s.next[n] in s.refs)
    && (forall t :: t in s.pcs ==> LocalOk(s.refs.Keys, s.pcs[t]))
    && |s.pcs| < SHOULD_BE_ON_FREELIST - 2
  }

  /** Callers only add nodes that they hold. */
  predicate Enabled(s: State, t: Tid, op: Op)
  {
    t in s.pcs && (s.pcs[t] == Idle && op.Add? ==> op.node in s.owned && op.node in s.refs)
  }

  /** One atomic access of thread `t`; `op` is the call that an idle thread begins. */
  function Step(s: State, t: Tid, op: Op): State
    requires Typed(s) && Enabled(s, t, op)
  {
    match s.pcs[t]
    case Idle => if op.Get? then s.(pcs := s.pcs[t := LoadHead]) else BeginAdd(s, t, op.node)
    case LoadHead => s.(pcs := s.pcs[t := Loop(s.head)])
    case LoadRefs(h) =>
      if s.refs[h] % SHOULD_BE_ON_FREELIST == 0 then s.(pcs := s.pcs[t := LoadHead])
      else s.(pcs := s.pcs[t := CasRefs(h, s.refs[h])])
    case CasRefs(h, r) =>
      if s.refs[h] != r then s.(pcs := s.pcs[t := LoadHead])
      else s.(refs := s.refs[h := Plus(r, 1)], pcs := s.pcs[t := LoadNext(h)])
    case LoadNext(h) => s.(pcs := s.pcs[t := CasHead(h, s.next[h])])
    case CasHead(h, nx) =>
      if s.head != h then s.(pcs := s.pcs[t := DropOne(h, s.head)])
      else s.(head := nx, pcs := s.pcs[t := DropTwo(h)],
              list := if s.list == [] then [] else s.list[1..], phase := s.phase[h := Popping(t)])
    case DropTwo(h) =>
      s.(refs := s.refs[h := Minus(s.refs[h], 2)], pcs := s.pcs[t := Idle],
         owned := s.owned + {h}, phase := s.phase[h := Owned])
    case DropOne(h, hd) =>
      var old_ := s.refs[h];
      if old_ == SHOULD_BE_ON_FREELIST + 1 then
        s.(refs := s.refs[h := Minus(old_, 1)], pcs := s.pcs[t := AddLoadHead(h, ToGet(hd))],
            phase := s.phase[h := Adding(t)])
      else s.(refs := s.refs[h := Minus(old_, 1)], pcs := s.pcs[t := Loop(hd)])
    case AddLoadHead(n, c) => s.(pcs := s.pcs[t := AddStoreNext(n, s.head, c)])
    case AddStoreNext(n, hd, c) => s.(next := s.next[n := hd], pcs := s.pcs[t := AddStoreRefs(n, hd, c)])
    case AddStoreRefs(n, hd, c) =>
      s.(refs := s.refs[n := 1], pcs := s.pcs[t := AddCasHead(n, hd, c)], phase := s.phase[n := Stored(t)])
    case AddCasHead(n, hd, c) =>
      if s.head != hd then s.(pcs := s.pcs[t := AddRetract(n, s.head, c)])
      else s.(head := n, pcs := s.pcs[t := Return(c)], list := [n] + s.list, phase := s.phase[n := Listed])
    case AddRetract(n, hd, c) =>
      var old_ := s.refs[n];
      var refs' := s.refs[n := Plus(old_, SHOULD_BE_ON_FREELIST - 1)];
      if old_ == 1 then s.(refs := refs', pcs := s.pcs[t := AddStoreNext(n, hd, c)], phase := s.phase[n := Adding(t)])
      else s.(refs := refs', pcs := s.pcs[t := Return(c)], phase := s.phase[n := Limbo])
  }

  /** The `fetch_add` of `add`. */
  function BeginAdd(s: State, t: Tid, n: Node): State
    requires t in s.pcs && n in s.refs
  {
    var old_ := s.refs[n];
    var refs' := s.refs[n := Plus(old_, SHOULD_BE_ON_FREELIST)];
    if old_ == 0 then
      s.(refs := refs', owned := s.owned - {n}, pcs := s.pcs[t := AddLoadHead(n, ToAdd)],
          phase := s.phase[n := Adding(t)])
    else s.(refs := refs', owned := s.owned - {n}, phase := s.phase[n := Limbo])
  }

  // ----- the invariant

  /** Thread-local state `l` holds a temporary reference on `n`. */
  predicate Holds(l: Local, n: Node)
  {
    (l.LoadNext? || l.CasHead? || l.DropOne?) && l.h == n
  }

  function Holders(pcs: map<Tid, Local>, n: Node): set<Tid> { set t | t in pcs && Holds(pcs[t], n) }

  function Temps(pcs: map<Tid, Local>, n: Node): nat { |Holders(pcs, n)| }

  function Bit(b: bool): nat { if b then 1 else 0 }

  /** What the reference count and flag are, apart from the temporary references. */
  function Weight(p: Phase): nat
  {
    match p
    case Owned => 0
    case Listed => 1
    case Popping(_) => 2
    case Limbo => SHOULD_BE_ON_FREELIST
    case Adding(_) => SHOULD_BE_ON_FREELIST
    case Stored(_) => 1
  }

  function After(list: seq<Node>, i: nat): Node { if i + 1 < |list| then list[i + 1] else 0 }

  /** The list is the chain of `next` pointers from `head`, without repetition. */
  predicate Chain(head: Node, next: map<Node, Node>, list: seq<Node>)
  {
    && (head == if list == [] then 0 else list[0])
    && (forall i :: 0 <= i < |list| ==> list[i] in next)
    && (forall i :: 0 <= i < |list| ==> next[list[i]] == After(list, i))
    && (forall i, j :: 0 <= i < j < |list| ==> list[i] != list[j])
  }

  /** The phase of node `n` agrees with the count, the list, the callers and the threads. */
  predicate NodeOk(s: State, n: Node)
    requires Typed(s) && n in s.refs
  {
    var p := s.phase[n];
    && s.refs[n] == Temps(s.pcs, n) + Weight(p)
    && (p.Owned? <==> n in s.owned)
    && (p.Listed? <==> n in s.list)
    && (p.Popping? || p.Adding? || p.Stored? ==> p.t in s.pcs)
    && (p.Popping? ==> s.pcs[p.t] == DropTwo(n))
    && (p.Adding? ==> Preparing(s.pcs[p.t], n) && Temps(s.pcs, n) == 0)
    && (p.Stored? ==> Publishing(s.pcs[p.t], n))
    && (p.Limbo? ==> Temps(s.pcs, n) > 0)
  }

  predicate Preparing(l: Local, n: Node) { (l.AddLoadHead? || l.AddStoreNext? || l.AddStoreRefs?) && l.n == n }

  predicate Publishing(l: Local, n: Node) { (l.AddCasHead? || l.AddRetract?) && l.n == n }

  /** What a thread knows about the node it works on. */
  predicate ThreadOk(s: State, t: Tid)
    requires Typed(s) && t in s.pcs
  {
    match s.pcs[t]
    case CasHead(h, nx) => nx == s.next[h]
    case DropTwo(h) => s.phase[h] == Popping(t)
    case AddLoadHead(n, _) => s.phase[n] == Adding(t)
    case AddStoreNext(n, _, _) => s.phase[n] == Adding(t)
    case AddStoreRefs(n, hd, _) => s.phase[n] == Adding(t) && s.next[n] == hd
    case AddCasHead(n, hd, _) => s.phase[n] == Stored(t) && s.next[n] == hd
    case AddRetract(n, _, _) => s.phase[n] == Stored(t)
    case _ => true
  }

  ghost predicate Inv(s: State)
  {
    && Typed(s)
    && Chain(s.head, s.next, s.list)
    && (forall n :: n in s.refs ==> NodeOk(s, n))
    && (forall t :: t in s.pcs ==> ThreadOk(s, t))
  }

  lemma TempsUpdate(pcs: map<Tid, Local>, t: Tid, l: Local, n: Node)
    requires t in pcs
    ensures Temps(pcs[t := l], n) == Temps(pcs, n) - Bit(Holds(pcs[t], n)) + Bit(Holds(l, n))
  {
    var a, b := Holders(pcs, n), Holders(pcs[t := l], n);
    assert b == (a - {t}) + (if Holds(l, n) then {t} else {});
  }

  lemma TempsBound(pcs: map<Tid, Local>, n: Node)
    ensures Temps(pcs, n) <= |pcs|
  {
    SubsetSize(Holders(pcs, n), pcs.Keys);
  }

  lemma HolderCounts(pcs: map<Tid, Local>, t: Tid, n: Node)
    requires t in pcs && Holds(pcs[t], n)
    ensures Temps(pcs, n) >= 1
  {
    assert t in Holders(pcs, n);
  }

  // ----- every step keeps the invariant

  /** The local state `l` has an unfinished business with no node but `m`. */
  predicate WorksOnlyOn(l: Local, m: Node)
  {
    && (l.DropTwo? ==> l.h == m)
    && (l.AddLoadHead? || l.AddStoreNext? || l.AddStoreRefs? || l.AddCasHead? || l.AddRetract? ==> l.n == m)
  }

  predicate NamesOther(p: Phase, t: Tid) { (p.Popping? || p.Adding? || p.Stored?) && p.t != t }

  /** Everything but node `m` is as before. */
  ghost predicate OnlyNode(s: State, s': State, m: Node)
    requires Typed(s) && Typed(s')
  {
    && s'.refs.Keys == s.refs.Keys
    && (forall n :: n in s.refs && n != m ==>
          && s'.refs[n] == s.refs[n] && s'.phase[n] == s.phase[n] && s'.next[n] == s.next[n]
          && (n in s'.owned <==> n in s.owned) && (n in s'.list <==> n in s.list))
  }

  /** A step of `t` that concerns node `m` only: what remains to be shown for it. */
  lemma Rebuild(s: State, s': State, t: Tid, l: Local, m: Node)
    requires Inv(s) && t in s.pcs && m in s.refs && Typed(s') && s'.pcs == s.pcs[t := l]
    requires OnlyNode(s, s', m) && WorksOnlyOn(s.pcs[t], m) 
    requires !NamesOther(s.phase[m], t) || (s'.phase[m] == s.phase[m] && s'.next[m] == s.next[m])
    requires forall n :: n != m ==> Holds(l, n) == Holds(s.pcs[t], n)
    requires s'.next[m] == s.next[m] || Temps(s.pcs, m) == 0
    requires Chain(s'.head, s'.next, s'.list)
    requires NodeOk(s', m) && ThreadOk(s', t)
    ensures Inv(s')
  {
    forall n | n in s'.refs && n != m ensures NodeOk(s', n) { OtherNode(s, s', t, l, m, n); }
    forall u | u in s'.pcs && u != t ensures ThreadOk(s', u) { OtherThread(s, s', t, l, m, u); }
  }

  lemma OtherNode(s: State, s': State, t: Tid, l: Local, m: Node, n: Node)
    requires Inv(s) && t in s.pcs && m in s.refs && Typed(s') && s'.pcs == s.pcs[t := l]
    requires OnlyNode(s, s', m) && WorksOnlyOn(s.pcs[t], m) && n in s.refs && n != m
    requires Holds(l, n) == Holds(s.pcs[t], n)
    ensures NodeOk(s', n)
  {
    hide Holders, Temps, Typed, Chain, ThreadOk;
    assert NodeOk(s, n);
    TempsUpdate(s.pcs, t, l, n);
  }

  lemma OtherThread(s: State, s': State, t: Tid, l: Local, m: Node, u: Tid)
    requires Inv(s) && t in s.pcs && m in s.refs && Typed(s') && s'.pcs == s.pcs[t := l]
    requires OnlyNode(s, s', m) && u in s.pcs && u != t
    requires !NamesOther(s.phase[m], t) || (s'.phase[m] == s.phase[m] && s'.next[m] == s.next[m])
    requires s'.next[m] == s.next[m] || Temps(s.pcs, m) == 0
    ensures ThreadOk(s', u)
  {
    hide Temps, Chain, NodeOk, Plus, Minus;
    assert ThreadOk(s, u);
    if s.pcs[u].CasHead? && s.pcs[u].h == m { HolderCounts(s.pcs, u, m); }
  }

  /** A step that changes nothing but the program counter of `t`. */
  lemma OnlyLocal(s: State, s': State, t: Tid, l: Local)
    requires Inv(s) && t in s.pcs && s' == s.(pcs := s.pcs[t := l]) && LocalOk(s.refs.Keys, l)
    requires forall n :: Holds(l, n) == Holds(s.pcs[t], n)
    requires !s.pcs[t].DropTwo? && forall n :: Preparing(s.pcs[t], n) ==> Preparing(l, n)
    requires forall n :: Publishing(s.pcs[t], n) ==> Publishing(l, n)
    requires Typed(s') ==> ThreadOk(s', t)
    ensures Inv(s')
  {
    hide NodeOk, ThreadOk, Chain, LocalOk, Holds, Preparing, Publishing;
    TypedLocal(s, t, l);
    forall n | n in s'.refs ensures NodeOk(s', n) { OnlyLocalNode(s, s', t, l, n); }
    forall u | u in s'.pcs && u != t ensures ThreadOk(s', u) { OnlyLocalThread(s, s', t, l, u); }
  }

  lemma TypedLocal(s: State, t: Tid, l: Local)
    requires Typed(s) && t in s.pcs && LocalOk(s.refs.Keys, l)
    ensures Typed(s.(pcs := s.pcs[t := l]))
  {
    hide LocalOk;
    assert s.pcs[t := l].Keys == s.pcs.Keys;
  }

  lemma OnlyLocalNode(s: State, s': State, t: Tid, l: Local, n: Node)
    requires Typed(s) && t in s.pcs && s' == s.(pcs := s.pcs[t := l]) && Typed(s') && n in s.refs && NodeOk(s, n)
    requires Holds(l, n) == Holds(s.pcs[t], n)
    requires !s.pcs[t].DropTwo? && (Preparing(s.pcs[t], n) ==> Preparing(l, n))
    requires (Publishing(s.pcs[t], n) ==> Publishing(l, n))
    ensures NodeOk(s', n)
  {
    hide Temps, Typed, Holds, Preparing, Publishing;
    TempsUpdate(s.pcs, t, l, n);
  }

  lemma OnlyLocalThread(s: State, s': State, t: Tid, l: Local, u: Tid)
    requires Typed(s) && t in s.pcs && s' == s.(pcs := s.pcs[t := l]) && Typed(s') && u in s.pcs && u != t
    requires ThreadOk(s, u)
    ensures ThreadOk(s', u)
  {
    hide LocalOk;
  }

  /** The steps that only load, or whose compare-and-swap fails. */
  lemma LoadSteps(s: State, t: Tid, op: Op)
    requires Inv(s) && Enabled(s, t, op) && Step(s, t, op) == s.(pcs := s.pcs[t := Step(s, t, op).pcs[t]])
    requires t in Step(s, t, op).pcs
    requires var l := s.pcs[t];
             || (l.Idle? && op.Get?) || l.LoadHead? || l.LoadRefs? || (l.CasRefs? && s.refs[l.h] != l.refs) ||
                 l.LoadNext?
             || (l.CasHead? && s.head != l.h) || l.AddLoadHead? || (l.AddCasHead? && s.head != l.head)
    ensures Inv(Step(s, t, op))
  {
    hide NodeOk, Chain, Temps, Plus, Minus;
    var s' := Step(s, t, op);
    assert ThreadOk(s, t);
    OnlyLocal(s, s', t, s'.pcs[t]);
  }

  /** The memory stays well formed. */
  lemma TypedFrom(s: State, s': State, t: Tid, l: Local)
    requires Typed(s) && t in s.pcs && s'.pcs == s.pcs[t := l] && LocalOk(s.refs.Keys, l)
    requires s'.refs.Keys == s'.next.Keys == s'.phase.Keys == s.refs.Keys
    requires s'.head == 0 || s'.head in s.refs
    requires forall n :: n in s.refs && s'.next[n] != s.next[n] ==> s'.next[n] == 0 || s'.next[n] in s.refs
    ensures Typed(s')
  {
    hide LocalOk;
    assert s'.pcs.Keys == s.pcs.Keys;
  }

  lemma KnownLocal(s: State, t: Tid)
    requires Typed(s) && t in s.pcs
    ensures LocalOk(s.refs.Keys, s.pcs[t]) && |s.pcs| < SHOULD_BE_ON_FREELIST - 2
    ensures s.refs.Keys == s.next.Keys == s.phase.Keys && (s.head == 0 || s.head in s.refs)
  {
  }

  lemma CasRefsStep(s: State, t: Tid, op: Op)
    requires Inv(s) && Enabled(s, t, op) && s.pcs[t].CasRefs? && s.refs[s.pcs[t].h] == s.pcs[t].refs
    ensures Inv(Step(s, t, op))
  {
    hide Chain, Temps, Typed;
    KnownLocal(s, t);
    var s', h := Step(s, t, op), s.pcs[t].h;
    assert NodeOk(s, h);
    TempsUpdate(s.pcs, t, LoadNext(h), h);
    TempsBound(s.pcs, h);
    TypedFrom(s, s', t, LoadNext(h));
    Rebuild(s, s', t, LoadNext(h), h);
  }

  lemma BeginAddStep(s: State, t: Tid, op: Op)
    requires Inv(s) && Enabled(s, t, op) && s.pcs[t].Idle? && op.Add? && s.refs[op.node] == 0
    ensures Inv(Step(s, t, op))
  {
    hide Chain, Temps, Typed, Publishing;
    KnownLocal(s, t);
    var s', n := Step(s, t, op), op.node;
    assert NodeOk(s, n);
    var l := AddLoadHead(n, ToAdd);
    TempsUpdate(s.pcs, t, l, n);
    TypedFrom(s, s', t, l);
    Rebuild(s, s', t, l, n);
  }

  /** Adding a node on which others still hold references leaves it in limbo. */
  lemma AddLaterStep(s: State, t: Tid, op: Op)
    requires Inv(s) && Enabled(s, t, op) && s.pcs[t].Idle? && op.Add? && s.refs[op.node] != 0
    ensures Inv(Step(s, t, op))
  {
    hide Chain, Temps, Typed, Publishing, Preparing;
    KnownLocal(s, t);
    var s', n := Step(s, t, op), op.node;
    assert NodeOk(s, n);
    TempsUpdate(s.pcs, t, Idle, n);
    TempsBound(s.pcs, n);
    assert s'.pcs == s.pcs[t := Idle];
    TypedFrom(s, s', t, Idle);
    Rebuild(s, s', t, Idle, n);
  }

  /** Taking the first node off the list. */
  lemma PopStep(s: State, t: Tid, op: Op)
    requires Inv(s) && Enabled(s, t, op) && s.pcs[t].CasHead? && s.head == s.pcs[t].h
    ensures Inv(Step(s, t, op))
  {
    hide Temps, Typed;
    KnownLocal(s, t);
    var s', h := Step(s, t, op), s.pcs[t].h;
    assert NodeOk(s, h) && ThreadOk(s, t);
    NextKnown(s, h);
    TempsUpdate(s.pcs, t, DropTwo(h), h);
    TypedFrom(s, s', t, DropTwo(h));
    PopChain(s.head, s.next, s.list);
    Rebuild(s, s', t, DropTwo(h), h);
  }

  lemma NextKnown(s: State, h: Node)
    requires Typed(s) && h in s.refs
    ensures h != 0 && (s.next[h] == 0 || s.next[h] in s.refs)
  {
  }

  lemma PopChain(head: Node, next: map<Node, Node>, list: seq<Node>)
    requires Chain(head, next, list) && head != 0
    ensures |list| > 0 && list[0] == head && Chain(next[head], next, list[1..])
    ensures head !in list[1..] && forall n :: n != head ==> (n in list <==> n in list[1..])
  {
    var rest := list[1..];
    assert list == [head] + rest;
    assert next[list[0]] == After(list, 0);
    forall i | 0 <= i < |rest| ensures next[rest[i]] == After(rest, i) {
      assert next[list[i + 1]] == After(list, i + 1);
    }
  }

  lemma PushChain(head: Node, next: map<Node, Node>, list: seq<Node>, n: Node)
    requires Chain(head, next, list) && n !in list && n in next && next[n] == head && n != 0
    ensures Chain(n, next, [n] + list)
  {
    var all := [n] + list;
    forall i | 0 <= i < |all| ensures next[all[i]] == After(all, i) {
      if i > 0 { assert next[list[i - 1]] == After(list, i - 1); }
    }
  }

  lemma DropTwoStep(s: State, t: Tid, op: Op)
    requires Inv(s) && Enabled(s, t, op) && s.pcs[t].DropTwo?
    ensures Inv(Step(s, t, op))
  {
    hide Chain, Temps, Typed, Publishing, Preparing;
    KnownLocal(s, t);
    var s', h := Step(s, t, op), s.pcs[t].h;
    assert NodeOk(s, h) && ThreadOk(s, t);
    TempsUpdate(s.pcs, t, Idle, h);
    TempsBound(s.pcs, h);
    TypedFrom(s, s', t, Idle);
    assert NodeOk(s', h);
    Rebuild(s, s', t, Idle, h);
  }

  /** Giving back the last reference on a node in limbo: the thread takes over its addition. */
  lemma DropLastStep(s: State, t: Tid, op: Op)
    requires Inv(s) && Enabled(s, t, op) && s.pcs[t].DropOne? && s.refs[s.pcs[t].h] == SHOULD_BE_ON_FREELIST + 1
    ensures Inv(Step(s, t, op))
  {
    hide Chain, Temps, Typed, Publishing;
    KnownLocal(s, t);
    var s', h, hd := Step(s, t, op), s.pcs[t].h, s.pcs[t].head;
    assert NodeOk(s, h);
    HolderCounts(s.pcs, t, h);
    var l := AddLoadHead(h, ToGet(hd));
    TempsUpdate(s.pcs, t, l, h);
    TempsBound(s.pcs, h);
    TypedFrom(s, s', t, l);
    Rebuild(s, s', t, l, h);
  }

  lemma DropOneStep(s: State, t: Tid, op: Op)
    requires Inv(s) && Enabled(s, t, op) && s.pcs[t].DropOne? && s.refs[s.pcs[t].h] != SHOULD_BE_ON_FREELIST + 1
    ensures Inv(Step(s, t, op))
  {
    hide Chain, Temps, Typed, Preparing, Publishing;
    KnownLocal(s, t);
    var s', h, hd := Step(s, t, op), s.pcs[t].h, s.pcs[t].head;
    assert NodeOk(s, h);
    HolderCounts(s.pcs, t, h);
    var l := Loop(hd);
    TempsUpdate(s.pcs, t, l, h);
    TempsBound(s.pcs, h);
    TypedFrom(s, s', t, l);
    DropOneNode(s, s', t, h, l);
    Rebuild(s, s', t, l, h);
  }

  lemma DropOneNode(s: State, s': State, t: Tid, h: Node, l: Local)
    requires Typed(s) && Typed(s') && h in s.refs && NodeOk(s, h) && t in s.pcs && s.pcs[t].DropOne? && s.pcs[t].h == h
    requires s' == s.(refs := s.refs[h := Minus(s.refs[h], 1)], pcs := s.pcs[t := l]) && (l.Idle? || l.LoadRefs?)
    requires 1 <= Temps(s.pcs, h) == Temps(s'.pcs, h) + 1 && Temps(s.pcs, h) < SHOULD_BE_ON_FREELIST - 2
    requires s.refs[h] != SHOULD_BE_ON_FREELIST + 1
    ensures NodeOk(s', h)
  {
    hide Temps, Typed;
  }

  lemma StoreNextStep(s: State, t: Tid, op: Op)
    requires Inv(s) && Enabled(s, t, op) && s.pcs[t].AddStoreNext?
    ensures Inv(Step(s, t, op))
  {
    hide Temps, Typed, Publishing;
    KnownLocal(s, t);
    var s', n, hd, c := Step(s, t, op), s.pcs[t].n, s.pcs[t].head, s.pcs[t].c;
    assert NodeOk(s, n) && ThreadOk(s, t);
    var l := AddStoreRefs(n, hd, c);
    TempsUpdate(s.pcs, t, l, n);
    TypedFrom(s, s', t, l);
    assert n !in s.list;
    Rebuild(s, s', t, l, n);
  }

  lemma StoreRefsStep(s: State, t: Tid, op: Op)
    requires Inv(s) && Enabled(s, t, op) && s.pcs[t].AddStoreRefs?
    ensures Inv(Step(s, t, op))
  {
    hide Temps, Typed, Chain;
    KnownLocal(s, t);
    var s', n, hd, c := Step(s, t, op), s.pcs[t].n, s.pcs[t].head, s.pcs[t].c;
    assert NodeOk(s, n) && ThreadOk(s, t);
    var l := AddCasHead(n, hd, c);
    TempsUpdate(s.pcs, t, l, n);
    TypedFrom(s, s', t, l);
    Rebuild(s, s', t, l, n);
  }

  /** Publishing a node at the front of the list. */
  lemma PushStep(s: State, t: Tid, op: Op)
    requires Inv(s) && Enabled(s, t, op) && s.pcs[t].AddCasHead? && s.head == s.pcs[t].head
    ensures Inv(Step(s, t, op))
  {
    hide Temps, Typed;
    KnownLocal(s, t);
    var s', n, c := Step(s, t, op), s.pcs[t].n, s.pcs[t].c;
    assert NodeOk(s, n) && ThreadOk(s, t);
    TempsUpdate(s.pcs, t, Return(c), n);
    TypedFrom(s, s', t, Return(c));
    NextKnown(s, n);
    PushChain(s.head, s.next, s.list, n);
    Rebuild(s, s', t, Return(c), n);
  }

  lemma ReturnsTo(nodes: set<Node>, c: Cont)
    requires ContOk(nodes, c)
    ensures LocalOk(nodes, Return(c)) && (Return(c).Idle? || Return(c).LoadRefs?)
  {
  }

  /** The publication failed and nobody else refers to the node: try again. */
  lemma RetryStep(s: State, t: Tid, op: Op)
    requires Inv(s) && Enabled(s, t, op) && s.pcs[t].AddRetract? && s.refs[s.pcs[t].n] == 1
    ensures Inv(Step(s, t, op))
  {
    hide Temps, Typed, Chain;
    KnownLocal(s, t);
    var s', n, hd, c := Step(s, t, op), s.pcs[t].n, s.pcs[t].head, s.pcs[t].c;
    assert NodeOk(s, n) && ThreadOk(s, t);
    var l := AddStoreNext(n, hd, c);
    TempsUpdate(s.pcs, t, l, n);
    TypedFrom(s, s', t, l);
    Rebuild(s, s', t, l, n);
  }

  /** The publication failed while others refer to the node: leave it to the last of them. */
  lemma LeaveStep(s: State, t: Tid, op: Op)
    requires Inv(s) && Enabled(s, t, op) && s.pcs[t].AddRetract? && s.refs[s.pcs[t].n] != 1
    ensures Inv(Step(s, t, op))
  {
    hide Temps, Typed, Chain, Publishing, Preparing, Return;
    KnownLocal(s, t);
    var s', n, c := Step(s, t, op), s.pcs[t].n, s.pcs[t].c;
    assert NodeOk(s, n) && ThreadOk(s, t);
    var l := Return(c);
    ReturnsTo(s.refs.Keys, c);
    TempsUpdate(s.pcs, t, l, n);
    TempsBound(s.pcs, n);
    TypedFrom(s, s', t, l);
    Rebuild(s, s', t, l, n);
  }

  /** Every atomic step of every thread keeps the invariant. */
  lemma StepInv(s: State, t: Tid, op: Op)
    requires Inv(s) && Enabled(s, t, op)
    ensures Inv(Step(s, t, op))
  {
    hide NodeOk, Chain, ThreadOk;
    KnownLocal(s, t);
    match s.pcs[t]
    case Idle =>
      if op.Get? {
        LoadSteps(s, t, op);
      } else if s.refs[op.node] == 0 {
        BeginAddStep(s, t, op);
      } else {
        AddLaterStep(s, t, op);
      }
    case LoadHead => LoadSteps(s, t, op);
    case LoadRefs(_) => LoadSteps(s, t, op);
    case CasRefs(h, r) => if s.refs[h] == r { CasRefsStep(s, t, op); } else { LoadSteps(s, t, op); }
    case LoadNext(_) => LoadSteps(s, t, op);
    case CasHead(h, _) => if s.head == h { PopStep(s, t, op); } else { LoadSteps(s, t, op); }
    case DropTwo(_) => DropTwoStep(s, t, op);
    case DropOne(h, _) =>
      if s.refs[h] == SHOULD_BE_ON_FREELIST + 1 {
        DropLastStep(s, t, op);
      } else {
        DropOneStep(s, t, op);
      }
    case AddLoadHead(_, _) => LoadSteps(s, t, op);
    case AddStoreNext(_, _, _) => StoreNextStep(s, t, op);
    case AddStoreRefs(_, _, _) => StoreRefsStep(s, t, op);
    case AddCasHead(_, hd, _) => if s.head == hd { PushStep(s, t, op); } else { LoadSteps(s, t, op); }
    case AddRetract(n, _, _) => if s.refs[n] == 1 { RetryStep(s, t, op); } else { LeaveStep(s, t, op); }
  }

  // ----- whole runs

  datatype Event = Event(t: Tid, op: Op)

  /** All nodes are in callers' hands, the list is empty, no call is in progress. */
  ghost predicate Init(s: State)
  {
    && Typed(s) && s.head == 0 && s.list == [] && s.owned == s.refs.Keys
    && (forall n :: n in s.refs ==> s.refs[n] == 0 && s.phase[n] == Owned)
    && (forall t :: t in s.pcs ==> s.pcs[t] == Idle)
  }

  /** `states` is the run that the interleaving `events` produces. */
  ghost predicate IsRun(states: seq<State>, events: seq<Event>)
  {
    && |states| == |events| + 1 && Init(states[0])
    && forall i :: 0 <= i < |events| ==>
         Typed(states[i]) && Enabled(states[i], events[i].t, events[i].op)
         && states[i + 1] == Step(states[i], events[i].t, events[i].op)
  }

  lemma InitInv(s: State)
    requires Init(s)
    ensures Inv(s)
  {
    forall n | n in s.refs ensures NodeOk(s, n) {
      assert Holders(s.pcs, n) == {};
    }
  }

  lemma {:induction false} RunInv(states: seq<State>, events: seq<Event>, i: nat)
    requires IsRun(states, events) && i < |states|
    ensures Inv(states[i])
  {
    if i == 0 {
      InitInv(states[0]);
    } else {
      RunInv(states, events, i - 1);
      assert states[i - 1 + 1] == states[i];
      StepInv(states[i - 1], events[i - 1].t, events[i - 1].op);
    }
  }

  /** The call of `try_get` by `t` returns node `n` with this step. */
  predicate Returns(s: State, e: Event, n: Node) { e.t in s.pcs && s.pcs[e.t] == DropTwo(n) }

  /** A call of `add` for node `n` begins with this step. */
  predicate Begins(s: State, e: Event, n: Node) { e.t in s.pcs && s.pcs[e.t].Idle? && e.op == Add(n) }

  /**
    The node that a thread is about to return is in nobody else's hands: no caller holds it, it
    is not on the list, its flag is clear (the assertion in `try_get`), no other thread returns it.
   */
  lemma PoppedIsExclusive(s: State, t: Tid, n: Node)
    requires Inv(s) && t in s.pcs && s.pcs[t] == DropTwo(n)
    ensures n in s.refs && n !in s.owned && n !in s.list
    ensures s.refs[n] < SHOULD_BE_ON_FREELIST
    ensures forall u :: u in s.pcs && s.pcs[u] == DropTwo(n) ==> u == t
  {
    assert ThreadOk(s, t);
    assert NodeOk(s, n);
    TempsBound(s.pcs, n);
    forall u | u in s.pcs && s.pcs[u] == DropTwo(n) ensures u == t { assert ThreadOk(s, u); }
  }

  lemma OwnedStep(s: State, e: Event, n: Node)
    requires Typed(s) && Enabled(s, e.t, e.op)
    ensures n in s.owned && !Begins(s, e, n) ==> n in Step(s, e.t, e.op).owned
    ensures Returns(s, e, n) ==> n in Step(s, e.t, e.op).owned
  {
  }

  lemma {:induction false} OwnedUntilAdded(states: seq<State>, events: seq<Event>, n: Node, i: nat, j: nat)
    requires IsRun(states, events) && i <= j < |states| && n in states[i].owned
    requires forall k :: i <= k < j ==> !Begins(states[k], events[k], n)
    ensures n in states[j].owned
    decreases j
  {
    if i < j {
      OwnedUntilAdded(states, events, n, i, j - 1);
      var k := j - 1;
      assert states[k + 1] == Step(states[k], events[k].t, events[k].op);
      OwnedStep(states[k], events[k], n);
    }
  }

  /** No node is given to two callers: between two returns of a node it was added again. */
  lemma NeverGivenTwice(states: seq<State>, events: seq<Event>, n: Node, i: nat, j: nat)
    requires IsRun(states, events) && i < j < |events|
    requires Returns(states[i], events[i], n) && Returns(states[j], events[j], n)
    ensures exists k :: i < k < j && Begins(states[k], events[k], n)
  {
    RunInv(states, events, j);
    PoppedIsExclusive(states[j], events[j].t, n);
    assert states[i + 1] == Step(states[i], events[i].t, events[i].op);
    OwnedStep(states[i], events[i], n);
    if forall k :: i + 1 <= k < j ==> !Begins(states[k], events[k], n) {
      OwnedUntilAdded(states, events, n, i + 1, j);
    }
  }

  /**
    No addition is lost: a node that no caller holds is on the list, or some thread is at work
    to give it out, to add it, or to drop a reference on it while its flag is set.
   */
  lemma NeverLost(s: State, n: Node)
    requires Inv(s) && n in s.refs && n !in s.owned
    ensures n in s.list || exists t :: t in s.pcs && Responsible(s, t, n)
  {
    assert NodeOk(s, n);
    var p := s.phase[n];
    if p.Popping? || p.Adding? || p.Stored? {
      assert Responsible(s, p.t, n);
    } else if p.Limbo? {
      var t :| t in Holders(s.pcs, n);
      assert Responsible(s, t, n);
    }
  }

  predicate Responsible(s: State, t: Tid, n: Node)
    requires t in s.pcs && n in s.refs
  {
    var l := s.pcs[t];
    l == DropTwo(n) || Preparing(l, n) || Publishing(l, n) || (Holds(l, n) && s.refs[n] >= SHOULD_BE_ON_FREELIST)
  }

  /** When no call is in progress, every node is either with a caller or on the list, exactly once. */
  lemma Quiescent(s: State)
    requires Inv(s) && forall t :: t in s.pcs ==> s.pcs[t].Idle?
    ensures Chain(s.head, s.next, s.list)
    ensures forall n :: n in s.refs ==> (n in s.list <==> n !in s.owned) && s.refs[n] == if n in s.list then 1 else 0
  {
    forall n | n in s.refs ensures (n in s.list <==> n !in s.owned) && s.refs[n] == if n in s.list then 1 else 0 {
      assert NodeOk(s, n);
      assert Holders(s.pcs, n) == {};
      if n !in s.owned { NeverLost(s, n); }
    }
  }
}
