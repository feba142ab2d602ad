/**
  The optimistic dequeue counters of a producer's sub-queue: one producer, any number of
  consumers, interleaved atomic steps (sequential consistency, unbounded indices).

  A consumer compares against an overcommit count that may be stale.  `granted` and
  `rejected` are history: the numbers that the optimistic counter gave out and what became of
  them.  A number's record keeps the overcommit value its owner had read and the numbers
  that had been rejected at that time.
 */
module DequeueCounters {
  import opened Cardinality

  type Tid = nat

  datatype Record = Record(over: nat, rejected: set<nat>)

  datatype Local =
    | Idle
    | LoadOvercommit(tail: nat)
    | LoadOptimistic(tail: nat, seen: Record)
    | Claim(seen: Record)
    | Recheck(seen: Record, my: nat)
    | Take(my: nat)
    | GiveBack(my: nat)
    | Taken(index: nat)

  datatype State = State(
    tail: nat, optimistic: nat, overcommit: nat, head: nat, pcs: map<Tid, Local>,
    granted: map<nat, Record>, rejected: set<nat>)

  /** The producer publishes one more element. */
  function Publish(s: State): State { s.(tail := s.tail + 1) }

  /** One atomic access of consumer `t`. */
  function Step(s: State, t: Tid): State
    requires t in s.pcs
  {
    match s.pcs[t]
    case Idle => s.(pcs := s.pcs[t := LoadOvercommit(s.tail)])
    case LoadOvercommit(tail) => s.(pcs := s.pcs[t := LoadOptimistic(tail, Record(s.overcommit, s.rejected))])
    case LoadOptimistic(tail, seen) =>
      if s.optimistic - seen.over < tail then s.(pcs := s.pcs[t := Claim(seen)]) else s.(pcs := s.pcs[t := Idle])
    case Claim(seen) => s.(optimistic := s.optimistic + 1, pcs := s.pcs[t := Recheck(seen, s.optimistic)])
    case Recheck(seen, my) =>
      if my - seen.over < s.tail then s.(pcs := s.pcs[t := Take(my)], granted := s.granted[my := seen])
      else s.(pcs := s.pcs[t := GiveBack(my)])
    case Take(my) => s.(head := s.head + 1, pcs := s.pcs[t := Taken(s.head)])
    case GiveBack(my) => s.(overcommit := s.overcommit + 1, rejected := s.rejected + {my}, pcs := s.pcs[t := Idle])
    case Taken(_) => s.(pcs := s.pcs[t := Idle])
  }

  // ----- the invariant

  predicate Below(a: set<nat>, n: nat) { forall x :: x in a ==> x < n }

  /** A value of the overcommit counter that was, or is, current. */
  predicate Seen(r: Record, rejected: set<nat>)
  {
    r.rejected <= rejected && |r.rejected| == r.over
  }

  /** The number a thread has drawn and not yet settled. */
  predicate Pending(l: Local, my: nat) { (l.Recheck? || l.GiveBack?) && l.my == my }

  predicate LocalOk(s: State, l: Local)
  {
    match l
    case LoadOptimistic(_, seen) => Seen(seen, s.rejected)
    case Claim(seen) => Seen(seen, s.rejected)
    case Recheck(seen, my) =>
      Seen(seen, s.rejected) && Below(seen.rejected, my) && my < s.optimistic && my !in s.granted && my !in s.rejected
    case GiveBack(my) => my < s.optimistic && my !in s.granted && my !in s.rejected
    case Taken(i) => i < s.head
    case _ => true
  }

  predicate GrantOk(s: State, g: nat)
    requires g in s.granted
  {
    var r := s.granted[g];
    Seen(r, s.rejected) && Below(r.rejected, g) && g < s.optimistic && g - r.over < s.tail
  }

  /** The consumers that have been granted an element and not yet drawn its index. */
  function Takers(pcs: map<Tid, Local>): set<Tid> { set t | t in pcs && pcs[t].Take? }

  ghost predicate Inv(s: State)
  {
    && |s.rejected| == s.overcommit && Below(s.rejected, s.optimistic)
    && (forall g :: g in s.granted ==> g !in s.rejected && GrantOk(s, g))
    && (forall t :: t in s.pcs ==> LocalOk(s, s.pcs[t]))
    && (forall t, u, my: nat :: t in s.pcs && u in s.pcs && t != u ==>
          !(Pending(s.pcs[t], my) && Pending(s.pcs[u], my)))
    && (forall t, u :: t in s.pcs && u in s.pcs && t != u && s.pcs[t].Taken? && s.pcs[u].Taken? ==>
          s.pcs[t].index != s.pcs[u].index)
    && |s.granted| == s.head + |Takers(s.pcs)|
  }

  function UpTo(n: nat): (r: set<nat>)
    ensures forall x: nat :: x in r <==> x < n
  {
    if n == 0 then {} else UpTo(n - 1) + {n - 1}
  }

  lemma {:induction false} UpToSize(n: nat)
    ensures |UpTo(n)| == n
  {
    if n > 0 {
      UpToSize(n - 1);
    }
  }

  lemma {:induction false} MaxOf(a: set<nat>) returns (m: nat)
    requires a != {}
    ensures m in a && forall x :: x in a ==> x <= m
  {
    var x :| x in a;
    m := x;
    if a - {x} != {} {
      var k := MaxOf(a - {x});
      m := if k > x then k else x;
      assert a == (a - {x}) + {x};
    } else {
      assert a == {x};
    }
  }

  /**
    The counting argument: the largest granted number was drawn after as many rejections as its
    owner had read, so at most `tail` numbers are granted, however stale the values read were.
   */
  lemma GrantsFit(s: State)
    requires forall g :: g in s.granted ==> g !in s.rejected && GrantOk(s, g)
    ensures |s.granted| <= s.tail
  {
    if s.granted != map[] {
      assert s.granted.Keys != {} by { var g :| g in s.granted; assert g in s.granted.Keys; }
      var m := MaxOf(s.granted.Keys);
      assert GrantOk(s, m);
      CountBelow(s.granted.Keys, s.granted[m].rejected, m);
    }
  }

  /** Numbers up to `m` that are not among `b` of them are at most `m + 1 - |b|`. */
  lemma CountBelow(a: set<nat>, b: set<nat>, m: nat)
    requires (forall x :: x in a ==> x <= m && x !in b) && (forall x :: x in b ==> x <= m)
    ensures |a| <= m + 1 - |b|
  {
    var all := UpTo(m + 1);
    UpToSize(m + 1);
    assert a <= all - b && b <= all;
    SubsetSize(a, all - b);
    assert |all - b| == |all| - |b|;
  }

  /** An index is drawn only where an element has been published. */
  lemma DrawnIsPublished(s: State)
    requires Inv(s)
    ensures s.head <= s.tail
    ensures forall t :: t in s.pcs && s.pcs[t].Take? ==> s.head < s.tail
  {
    GrantsFit(s);
    forall t | t in s.pcs && s.pcs[t].Take? ensures s.head < s.tail { assert t in Takers(s.pcs); }
  }

  // ----- every step keeps the invariant

  lemma TakersUpdate(pcs: map<Tid, Local>, t: Tid, l: Local)
    requires t in pcs
    ensures |Takers(pcs[t := l])| == |Takers(pcs)| - (if pcs[t].Take? then 1 else 0) + (if l.Take? then 1 else 0)
  {
    var a, b := Takers(pcs), Takers(pcs[t := l]);
    assert b == (a - {t}) + (if l.Take? then {t} else {});
  }

  lemma PublishInv(s: State)
    requires Inv(s)
    ensures Inv(Publish(s))
  {
    var s' := Publish(s);
    forall g | g in s'.granted ensures g !in s'.rejected && GrantOk(s', g) { assert GrantOk(s, g); }
    forall t | t in s'.pcs ensures LocalOk(s', s'.pcs[t]) { assert LocalOk(s, s.pcs[t]); }
  }

  /** A step that leaves the counters and the history as they are. */
  lemma QuietLocal(s: State, t: Tid, l: Local)
    requires Inv(s) && t in s.pcs && LocalOk(s, l)
    requires !s.pcs[t].Take? && !l.Take? && !l.Recheck? && !l.GiveBack? && !l.Taken?
    ensures Inv(s.(pcs := s.pcs[t := l]))
  {
    hide Below, Takers, Seen;
    var s' := s.(pcs := s.pcs[t := l]);
    TakersUpdate(s.pcs, t, l);
    forall g | g in s'.granted ensures g !in s'.rejected && GrantOk(s', g) { assert GrantOk(s, g); }
    forall u | u in s'.pcs ensures LocalOk(s', s'.pcs[u]) { if u != t { assert LocalOk(s, s.pcs[u]); } }
  }

  lemma QuietStep(s: State, t: Tid)
    requires Inv(s) && t in s.pcs
    requires (s.pcs[t].Idle? || s.pcs[t].LoadOvercommit? || s.pcs[t].LoadOptimistic? || s.pcs[t].Taken?)
    ensures Inv(Step(s, t))
  {
    assert LocalOk(s, s.pcs[t]);
    QuietLocal(s, t, Step(s, t).pcs[t]);
  }

  lemma ClaimStep(s: State, t: Tid)
    requires Inv(s) && t in s.pcs && s.pcs[t].Claim?
    ensures Inv(Step(s, t))
  {
    hide Takers;
    var s' := Step(s, t);
    assert LocalOk(s, s.pcs[t]);
    TakersUpdate(s.pcs, t, s'.pcs[t]);
    forall g | g in s'.granted ensures g !in s'.rejected && GrantOk(s', g) { assert GrantOk(s, g); }
    forall u | u in s'.pcs ensures LocalOk(s', s'.pcs[u]) { assert LocalOk(s, s.pcs[u]); }
  }

  lemma RecheckStep(s: State, t: Tid)
    requires Inv(s) && t in s.pcs && s.pcs[t].Recheck?
    ensures Inv(Step(s, t))
  {
    hide Takers, Below, Seen;
    var s' := Step(s, t);
    var my := s.pcs[t].my;
    assert LocalOk(s, s.pcs[t]) && Pending(s.pcs[t], my);
    TakersUpdate(s.pcs, t, s'.pcs[t]);
    forall g | g in s'.granted ensures g !in s'.rejected && GrantOk(s', g) { if g != my { assert GrantOk(s, g); } }
    forall u | u in s'.pcs ensures LocalOk(s', s'.pcs[u]) {
      if u != t { assert LocalOk(s, s.pcs[u]); assert !Pending(s.pcs[u], my); }
    }
  }

  lemma TakeStep(s: State, t: Tid)
    requires Inv(s) && t in s.pcs && s.pcs[t].Take?
    ensures Inv(Step(s, t))
  {
    hide Below, Takers;
    var s' := Step(s, t);
    TakersUpdate(s.pcs, t, s'.pcs[t]);
    forall g | g in s'.granted ensures g !in s'.rejected && GrantOk(s', g) { assert GrantOk(s, g); }
    forall u | u in s'.pcs ensures LocalOk(s', s'.pcs[u]) { if u != t { assert LocalOk(s, s.pcs[u]); } }
  }

  /** Rejecting number `my` disturbs no other thread and no grant. */
  lemma OtherLocal(s: State, s': State, my: nat, l: Local)
    requires LocalOk(s, l) && !Pending(l, my) && s'.rejected == s.rejected + {my}
    requires s'.granted == s.granted && s'.optimistic == s.optimistic && s'.head == s.head
    ensures LocalOk(s', l)
  {
    hide Below;
  }

  lemma OtherGrant(s: State, s': State, my: nat, g: nat)
    requires g in s.granted && GrantOk(s, g) && s'.rejected == s.rejected + {my}
    requires s'.granted == s.granted && s'.optimistic == s.optimistic && s'.tail == s.tail
    ensures GrantOk(s', g)
  {
    hide Below;
  }

  lemma GiveBackStep(s: State, t: Tid)
    requires Inv(s) && t in s.pcs && s.pcs[t].GiveBack?
    ensures Inv(Step(s, t))
  {
    hide Takers, Seen;
    var s' := Step(s, t);
    var my := s.pcs[t].my;
    assert LocalOk(s, s.pcs[t]) && Pending(s.pcs[t], my);
    TakersUpdate(s.pcs, t, s'.pcs[t]);
    forall g | g in s'.granted ensures g !in s'.rejected && GrantOk(s', g) { OtherGrant(s, s', my, g); }
    forall u | u in s'.pcs ensures LocalOk(s', s'.pcs[u]) {
      if u != t { OtherLocal(s, s', my, s.pcs[u]); }
    }
  }

  lemma StepInv(s: State, t: Tid)
    requires Inv(s) && t in s.pcs
    ensures Inv(Step(s, t))
  {
    hide Inv;
    match s.pcs[t]
    case Idle => QuietStep(s, t);
    case LoadOvercommit(_) => QuietStep(s, t);
    case LoadOptimistic(_, _) => QuietStep(s, t);
    case Claim(_) => ClaimStep(s, t);
    case Recheck(_, _) => RecheckStep(s, t);
    case Take(_) => TakeStep(s, t);
    case GiveBack(_) => GiveBackStep(s, t);
    case Taken(_) => QuietStep(s, t);
  }

  // ----- no number is lost

  /** The consumers that have drawn a number and not yet settled it. */
  function Drawing(pcs: map<Tid, Local>): set<Tid> { set t | t in pcs && (pcs[t].Recheck? || pcs[t].GiveBack?) }

  function IsDrawing(l: Local): nat { if l.Recheck? || l.GiveBack? then 1 else 0 }

  /** Every number given out was granted, was rejected, or is still with the consumer that drew it. */
  ghost predicate Conserved(s: State) { s.optimistic == |s.granted| + s.overcommit + |Drawing(s.pcs)| }

  lemma DrawingUpdate(pcs: map<Tid, Local>, t: Tid, l: Local)
    requires t in pcs
    ensures |Drawing(pcs[t := l])| == |Drawing(pcs)| - IsDrawing(pcs[t]) + IsDrawing(l)
  {
    var a, b := Drawing(pcs), Drawing(pcs[t := l]);
    assert b == (a - {t}) + (if IsDrawing(l) == 1 then {t} else {});
  }

  lemma StepConserves(s: State, t: Tid)
    requires Inv(s) && Conserved(s) && t in s.pcs
    ensures Conserved(Step(s, t))
  {
    hide Drawing, Inv;
    if s.pcs[t].Recheck? { NotYetGranted(s, t); }
    DrawingUpdate(s.pcs, t, Step(s, t).pcs[t]);
  }

  lemma NotYetGranted(s: State, t: Tid)
    requires Inv(s) && t in s.pcs && s.pcs[t].Recheck?
    ensures s.pcs[t].my !in s.granted
  {
    assert LocalOk(s, s.pcs[t]);
  }

  /** With all consumers idle, each number was granted and its element drawn, or was rejected. */
  lemma Quiescent(s: State)
    requires Inv(s) && Conserved(s) && forall t :: t in s.pcs ==> s.pcs[t].Idle?
    ensures |s.granted| == s.head && s.optimistic == s.head + s.overcommit
  {
    hide Below, Seen, GrantOk, LocalOk;
    assert Drawing(s.pcs) == {} && Takers(s.pcs) == {};
  }

  // ----- when a dequeue is refused

  /** The indices that are drawn, granted, or still wanted by a consumer that has drawn a number. */
  function Spoken(s: State): nat { s.head + |Takers(s.pcs)| + |Drawing(s.pcs)| }

  /**
    The first test of a dequeue fails exactly if the elements that it saw are no more than those
    spoken for and the numbers rejected since it read the overcommit count.
   */
  lemma RefusedIff(s: State, t: Tid)
    requires Inv(s) && Conserved(s) && t in s.pcs && s.pcs[t].LoadOptimistic?
    ensures var l := s.pcs[t];
            && (Step(s, t).pcs[t] == Idle <==> l.tail <= Spoken(s) + |s.rejected - l.seen.rejected|)
            && (Step(s, t).pcs[t] != Idle ==> Step(s, t).pcs[t] == Claim(l.seen))
  {
    hide Drawing, Takers, Below, GrantOk;
    var seen := s.pcs[t].seen;
    assert LocalOk(s, s.pcs[t]);
    RejectedSince(seen, s.rejected);
  }

  lemma RejectedSince(seen: Record, rejected: set<nat>)
    requires Seen(seen, rejected)
    ensures |rejected - seen.rejected| == |rejected| - seen.over
  {
    assert rejected == (rejected - seen.rejected) + seen.rejected;
  }

  /**
    The second test grants the number if the elements published by then are more than those spoken
    for by others and the numbers rejected since: a number is given back under contention only.
   */
  lemma GrantedIf(s: State, t: Tid)
    requires Inv(s) && Conserved(s) && t in s.pcs && s.pcs[t].Recheck?
    ensures var l := s.pcs[t];
            && Spoken(s) >= 1
            && (Spoken(s) - 1 + |s.rejected - l.seen.rejected| < s.tail ==> Step(s, t).pcs[t] == Take(l.my))
            && (Step(s, t).pcs[t] == Take(l.my) || Step(s, t).pcs[t] == GiveBack(l.my))
  {
    hide Takers, Below, GrantOk;
    var seen := s.pcs[t].seen;
    assert LocalOk(s, s.pcs[t]);
    RejectedSince(seen, s.rejected);
    assert t in Drawing(s.pcs);
    hide Drawing;
  }

  // ----- a consumer alone

  /** `n` steps of one consumer while nobody else moves. */
  function Alone(s: State, t: Tid, n: nat): (r: State)
    requires t in s.pcs
    ensures t in r.pcs
  {
    if n == 0 then s else Step(Alone(s, t, n - 1), t)
  }

  predicate Resting(s: State) { forall t :: t in s.pcs ==> s.pcs[t].Idle? }

  /** The state after the access of a lone dequeue that draws the first index. */
  function FirstTaken(s: State, t: Tid): State
  {
    s.(optimistic := s.optimistic + 1, head := s.head + 1,
        granted := s.granted[s.optimistic := Record(s.overcommit, s.rejected)],
       pcs := s.pcs[t := Taken(s.head)])
  }

  /** From rest, one consumer alone takes the first element if there is one, and else changes nothing. */
  lemma LoneDequeue(s: State, t: Tid)
    requires Inv(s) && Conserved(s) && Resting(s) && t in s.pcs
    ensures s.head < s.tail ==> Alone(s, t, 6) == FirstTaken(s, t)
    ensures s.head >= s.tail ==> Alone(s, t, 3) == s
  {
    Quiescent(s);
    hide Below, Seen, GrantOk, LocalOk, Takers, Drawing, Step, Alone;
    var seen := Record(s.overcommit, s.rejected);
    var s3 := Alone(s, t, 3);
    ThreeSteps(s, t);
    if s.head < s.tail {
      assert s3 == s.(pcs := s.pcs[t := Claim(seen)]);
      ThreeMore(s, s3, t);
      SixSteps(s, t);
    } else {
      assert s.pcs[t := Idle] == s.pcs;
    }
  }

  lemma Overwrite(m: map<Tid, Local>, t: Tid, x: Local, y: Local)
    ensures m[t := x][t := y] == m[t := y]
  {
  }

  lemma ThreeSteps(s: State, t: Tid)
    requires t in s.pcs && s.pcs[t].Idle?
    ensures Alone(s, t, 3) == s.(pcs := s.pcs[t := if s.optimistic - s.overcommit < s.tail
                                                   then Claim(Record(s.overcommit, s.rejected)) else Idle])
  {
    var seen := Record(s.overcommit, s.rejected);
    var l1, l2 := LoadOvercommit(s.tail), LoadOptimistic(s.tail, seen);
    hide Alone;
    OneMore(s, t, 0);
    OneMore(s, t, 1);
    OneMore(s, t, 2);
    assert Alone(s, t, 1) == s.(pcs := s.pcs[t := l1]);
    Overwrite(s.pcs, t, l1, l2);
    assert Alone(s, t, 2) == s.(pcs := s.pcs[t := l2]);
    Overwrite(s.pcs, t, l2, Claim(seen));
    Overwrite(s.pcs, t, l2, Idle);
  }

  lemma ThreeMore(s: State, s3: State, t: Tid)
    requires t in s.pcs && s.optimistic - s.overcommit < s.tail
    requires s3 == s.(pcs := s.pcs[t := Claim(Record(s.overcommit, s.rejected))])
    ensures Step(Step(Step(s3, t), t), t) == FirstTaken(s, t)
  {
    var seen, my := Record(s.overcommit, s.rejected), s.optimistic;
    var s4 := s.(optimistic := my + 1, pcs := s.pcs[t := Recheck(seen, my)]);
    Overwrite(s.pcs, t, Claim(seen), Recheck(seen, my));
    assert Step(s3, t) == s4;
    var s5 := s4.(granted := s.granted[my := seen], pcs := s.pcs[t := Take(my)]);
    Overwrite(s.pcs, t, Recheck(seen, my), Take(my));
    assert Step(s4, t) == s5;
    Overwrite(s.pcs, t, Take(my), Taken(s.head));
    assert Step(s5, t) == FirstTaken(s, t);
  }

  lemma OneMore(s: State, t: Tid, n: nat)
    requires t in s.pcs
    ensures Alone(s, t, 0) == s && Alone(s, t, n + 1) == Step(Alone(s, t, n), t)
  {
  }

  lemma SixSteps(s: State, t: Tid)
    requires t in s.pcs
    ensures var s3 := Alone(s, t, 3); Alone(s, t, 6) == Step(Step(Step(s3, t), t), t)
  {
    hide Step, Alone;
    OneMore(s, t, 3);
    OneMore(s, t, 4);
    OneMore(s, t, 5);
  }

  /** Where a step ends tells where it began, on the way to an index. */
  lemma CameFrom(s: State, t: Tid)
    requires t in s.pcs
    ensures var l := Step(s, t).pcs[t];
            && (l.Taken? ==> s.pcs[t].Take?) && (l.Take? ==> s.pcs[t].Recheck?) && (l.Recheck? ==> s.pcs[t].Claim?)
            && (l.Claim? ==> s.pcs[t].LoadOptimistic?) && (l.LoadOptimistic? ==> s.pcs[t].LoadOvercommit?)
  {
  }

  /** The lone dequeue has no index before its sixth step. */
  lemma NotBefore(s: State, t: Tid, n: nat)
    requires t in s.pcs && s.pcs[t].Idle? && Alone(s, t, 6).pcs[t].Taken? && n < 6
    ensures !Alone(s, t, n).pcs[t].Taken?
  {
    hide Step, Alone;
    OneMore(s, t, 0); CameFrom(Alone(s, t, 0), t);
    OneMore(s, t, 1); CameFrom(Alone(s, t, 1), t);
    OneMore(s, t, 2); CameFrom(Alone(s, t, 2), t);
    OneMore(s, t, 3); CameFrom(Alone(s, t, 3), t);
    OneMore(s, t, 4); CameFrom(Alone(s, t, 4), t);
    OneMore(s, t, 5); CameFrom(Alone(s, t, 5), t);
  }
}
