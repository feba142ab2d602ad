/**
  What the calls of the bounded queue come to: every item that a call was given is stored, on
  its way, lost with its place, or returned by another call; and calls that run alone do just
  what they are for.
 */
module BoundedQueueCalls {
  import opened MapSum
  import S = Semaphore
  import opened BoundedQueue

  // ----- items of a run

  /** The item of the enqueue that begins, is lost, or is returned with this event. */
  function BegunBy<T>(s: State<T>, e: Event<T>): multiset<T>
    requires Enabled(s, e.t)
  {
    if s.pcs[e.t].Idle? && e.c.call.Enqueue? then multiset{e.c.call.item} else multiset{}
  }

  function LostBy<T>(s: State<T>, e: Event<T>): multiset<T>
    requires Enabled(s, e.t)
  {
    if s.pcs[e.t].Store? && !e.c.lucky then multiset{s.pcs[e.t].item} else multiset{}
  }

  function ReturnedBy<T>(s: State<T>, e: Event<T>): multiset<T>
    requires Enabled(s, e.t)
  {
    if s.pcs[e.t].SignalPlace? then multiset{s.pcs[e.t].item} else multiset{}
  }

  /** The items that calls have been given, have lost, and have returned. */
  datatype Calls<T(==)> = Calls(begun: multiset<T>, lost: multiset<T>, returned: multiset<T>)

  ghost function CallsOf<T(!new)>(capacity: nat, states: seq<State<T>>, events: seq<Event<T>>, i: nat): Calls<T>
    requires IsRun(capacity, states, events) && i < |states|
  {
    if i == 0 then Calls(multiset{}, multiset{}, multiset{})
    else
      var c, s, e := CallsOf(capacity, states, events, i - 1), states[i - 1], events[i - 1];
      Calls(c.begun + BegunBy(s, e), c.lost + LostBy(s, e), c.returned + ReturnedBy(s, e))
  }

  /** The thread has an item `v` to put in. */
  ghost function Brings<T>(v: T): Local<T> -> nat
  {
    (l: Local<T>) => if (l.AwaitPermit? || l.Store?) && l.item == v then 1 else 0
  }

  /** The thread has taken an item `v` out. */
  ghost function Takes<T>(v: T): Local<T> -> nat
  {
    (l: Local<T>) => if l.SignalPlace? && l.item == v then 1 else 0
  }

  lemma OnlyOwnPlace<T(!new)>(s: State<T>, t: Tid, c: Choice<T>)
    requires Enabled(s, t)
    ensures var s' := Step(s, t, c); t in s'.pcs && s'.pcs == s.pcs[t := s'.pcs[t]]
  {
    hide S.Step;
    match s.pcs[t]
    case Idle =>
    case AwaitPermit(_) => assert s.pcs[t := s.pcs[t]] == s.pcs;
    case Store(_) =>
    case SignalItem =>
    case Posting =>
    case AwaitToken =>
    case TakeItem => assert s.pcs[t := s.pcs[t]] == s.pcs;
    case SignalPlace(_) =>
  }

  /** What one step does to the items `v` that go in. */
  lemma StepIn<T(!new)>(s: State<T>, e: Event<T>, v: T)
    requires Enabled(s, e.t)
    ensures var s' := Step(s, e.t, e.c);
            && s'.stored[v] + Total(s'.pcs, Brings(v)) + LostBy(s, e)[v]
               == s.stored[v] + Total(s.pcs, Brings(v)) + BegunBy(s, e)[v]
            && s'.lost == s.lost + |LostBy(s, e)|
  {
    if s.pcs[e.t].Store? {
      StoreIn(s, e, v);
      return;
    }
    hide S.Step, Total;
    OnlyOwnPlace(s, e.t, e.c);
    TotalUpdate(s.pcs, e.t, Step(s, e.t, e.c).pcs[e.t], Brings(v));
    match s.pcs[e.t]
    case Idle =>
    case AwaitPermit(_) =>
    case SignalItem =>
    case Posting =>
    case AwaitToken =>
    case TakeItem =>
    case SignalPlace(_) =>
  }

  lemma StoreIn<T(!new)>(s: State<T>, e: Event<T>, v: T)
    requires Enabled(s, e.t) && s.pcs[e.t].Store?
    ensures var s' := Step(s, e.t, e.c);
            && s'.stored[v] + Total(s'.pcs, Brings(v)) + LostBy(s, e)[v] == s.stored[v] + Total(s.pcs, Brings(v))
            && s'.lost == s.lost + |LostBy(s, e)|
  {
    hide Total;
    TotalUpdate(s.pcs, e.t, Step(s, e.t, e.c).pcs[e.t], Brings(v));
  }

  /** And to those that come out. */
  lemma StepOut<T(!new)>(s: State<T>, e: Event<T>, v: T)
    requires Enabled(s, e.t)
    ensures var s' := Step(s, e.t, e.c);
            s'.taken[v] + Total(s.pcs, Takes(v)) == s.taken[v] + Total(s'.pcs, Takes(v)) + ReturnedBy(s, e)[v]
  {
    hide S.Step, Total;
    OnlyOwnPlace(s, e.t, e.c);
    TotalUpdate(s.pcs, e.t, Step(s, e.t, e.c).pcs[e.t], Takes(v));
    match s.pcs[e.t]
    case Idle =>
    case AwaitPermit(_) =>
    case Store(_) =>
    case SignalItem =>
    case Posting =>
    case AwaitToken =>
    case TakeItem =>
    case SignalPlace(_) =>
  }

  /**
    In every run: what calls were given is stored, with a thread that brings it, or lost; what was
    taken out is with a thread or returned; and each loss costs one place.
   */
  lemma {:induction false} ItemsOfCalls<T(!new)>(capacity: nat, states: seq<State<T>>, events: seq<Event<T>>, i: nat,
      v: T)
    requires IsRun(capacity, states, events) && i < |states|
    ensures var s, c := states[i], CallsOf(capacity, states, events, i);
            && c.begun[v] == s.stored[v] + Total(s.pcs, Brings(v)) + c.lost[v]
            && s.taken[v] == Total(s.pcs, Takes(v)) + c.returned[v]
            && s.lost == |c.lost|
  {
    hide Step, Total, Init, BegunBy, LostBy, ReturnedBy;
    if i == 0 {
      NoItems(capacity, states[0], v);
    } else {
      var k := i - 1;
      ItemsOfCalls(capacity, states, events, k, v);
      assert Enabled(states[k], events[k].t) && states[k + 1] == Step(states[k], events[k].t, events[k].c);
      StepIn(states[k], events[k], v);
      StepOut(states[k], events[k], v);
    }
  }

  lemma NoItems<T(!new)>(capacity: nat, s: State<T>, v: T)
    requires Init(capacity, s)
    ensures s.stored[v] == s.taken[v] == Total(s.pcs, Brings(v)) == Total(s.pcs, Takes(v)) == s.lost == 0
  {
    TotalZero(s.pcs, Brings(v));
    TotalZero(s.pcs, Takes(v));
  }

  /** With all threads at rest, what calls were given is in the queue, returned, or lost. */
  lemma AtRest<T(!new)>(capacity: nat, states: seq<State<T>>, events: seq<Event<T>>, i: nat)
    requires IsRun(capacity, states, events) && i < |states|
    requires forall t :: t in states[i].pcs ==> states[i].pcs[t].Idle?
    ensures var s, c := states[i], CallsOf(capacity, states, events, i); c.begun == s.items + c.returned + c.lost
  {
    var s, c := states[i], CallsOf(capacity, states, events, i);
    forall v: T ensures c.begun[v] == (s.items + c.returned + c.lost)[v] {
      ItemsOfCalls(capacity, states, events, i, v);
      TotalZero(s.pcs, Brings(v));
      TotalZero(s.pcs, Takes(v));
      RunInv(capacity, states, events, i);
    }
  }

  // ----- calls that run alone

  predicate Resting<T>(s: State<T>) { forall t :: t in s.pcs ==> s.pcs[t].Idle? }

  /** Four steps of one thread, while nobody else moves. */
  function FourSteps<T>(s: State<T>, t: Tid, c: Choice<T>): State<T>
    requires Enabled(s, t)
  {
    Advance(Advance(Advance(Advance(s, t, c), t, c), t, c), t, c)
  }

  function Advance<T>(s: State<T>, t: Tid, c: Choice<T>): State<T> { if Enabled(s, t) then Step(s, t, c) else s }

  /** The facts about the semaphore of a queue at rest. */
  lemma SemaphoreAtRest<T(!new)>(capacity: nat, s: State<T>, t: Tid)
    requires Inv(capacity, s) && Resting(s) && t in s.pcs
    ensures t in s.sem.pcs && s.sem.pcs[t].Idle? && s.sem.count == |s.items|
  {
    Quiescent(capacity, s);
    assert Matches(s.pcs[t], s.sem.pcs[t]);
  }

  lemma Rewrite<T>(m: map<Tid, Local<T>>, t: Tid, x: Local<T>, y: Local<T>)
    ensures m[t := x][t := y] == m[t := y]
    ensures t in m && m[t] == y ==> m[t := x][t := y] == m
  {
  }

  /** An enqueue alone, with a place left, adds its item and one token. */
  lemma LoneEnqueue<T(!new)>(capacity: nat, s: State<T>, t: Tid, c: Choice<T>)
    requires Inv(capacity, s) && Resting(s) && t in s.pcs && c.call.Enqueue? && c.lucky
    ensures t in s.sem.pcs
    ensures var x := c.call.item;
            s.permits > 0 ==>
              FourSteps(s, t, c) == s.(permits := s.permits - 1, items := s.items + multiset{x},
                                       stored := s.stored + multiset{x},
                                       sem := s.sem.(count := s.sem.count + 1, signalled := s.sem.signalled + 1))
    ensures s.permits == 0 ==> FourSteps(s, t, c) == s.(pcs := s.pcs[t := AwaitPermit(c.call.item)])
  {
    hide Inv, Resting;
    SemaphoreAtRest(capacity, s, t);
    assert s.pcs[t].Idle? by { RestingOne(s, t); }
    var x := c.call.item;
    var s1 := s.(pcs := s.pcs[t := AwaitPermit(x)]);
    assert Advance(s, t, c) == s1;
    if s.permits > 0 {
      Rewrite(s.pcs, t, AwaitPermit(x), Store(x));
      var s2 := s.(permits := s.permits - 1, pcs := s.pcs[t := Store(x)]);
      assert Advance(s1, t, c) == s2;
      Rewrite(s.pcs, t, Store(x), SignalItem);
      var s3 := s2.(items := s.items + multiset{x}, stored := s.stored + multiset{x}, pcs := s.pcs[t := SignalItem]);
      assert Advance(s2, t, c) == s3;
      Rewrite(s.pcs, t, SignalItem, Idle);
      assert s.sem.pcs[t := S.Idle] == s.sem.pcs;
    }
  }

  lemma RestingOne<T>(s: State<T>, t: Tid)
    requires Resting(s) && t in s.pcs
    ensures s.pcs[t].Idle?
  {
  }

  /** A `try_dequeue` alone takes an item out and gives its place back if there is one, and else changes nothing. */
  lemma LoneTryDequeue<T(!new)>(capacity: nat, s: State<T>, t: Tid, c: Choice<T>)
    requires Inv(capacity, s) && Resting(s) && t in s.pcs && c.call.TryDequeue? && c.lucky
    ensures t in s.sem.pcs
    ensures c.pick in s.items ==>
              FourSteps(s, t, c) == s.(permits := s.permits + 1, items := s.items - multiset{c.pick},
                                       taken := s.taken + multiset{c.pick},
                                       sem := s.sem.(count := s.sem.count - 1, acquired := s.sem.acquired + 1))
    ensures s.items == multiset{} ==> Advance(s, t, c) == s
  {
    hide Inv, Resting, S.Step;
    SemaphoreAtRest(capacity, s, t);
    assert s.pcs[t].Idle? by { RestingOne(s, t); }
    if c.pick in s.items {
      TakesToken(s, t, c);
      var s2 := Advance(Advance(s, t, c), t, c);
      Rewrite(s.pcs, t, TakeItem, SignalPlace(c.pick));
      assert Advance(s2, t, c) == s2.(items := s.items - multiset{c.pick}, taken := s.taken + multiset{c.pick},
                                      pcs := s.pcs[t := SignalPlace(c.pick)]);
      Rewrite(s.pcs, t, SignalPlace(c.pick), Idle);
    } else if s.items == multiset{} {
      FindsNothing(s, t, c);
    }
  }

  lemma TakesToken<T(!new)>(s: State<T>, t: Tid, c: Choice<T>)
    requires t in s.pcs && t in s.sem.pcs && s.pcs[t].Idle? && s.sem.pcs[t].Idle? && s.sem.count > 0
    requires c.call.TryDequeue? && c.lucky
    ensures Advance(Advance(s, t, c), t, c) ==
            s.(sem := s.sem.(count := s.sem.count - 1, acquired := s.sem.acquired + 1), pcs := s.pcs[t := TakeItem])
  {
    var sem1 := s.sem.(pcs := s.sem.pcs[t := S.TryCas(s.sem.count, 1, false)]);
    assert Advance(s, t, c) == s.(sem := sem1, pcs := s.pcs[t := AwaitToken]);
    assert sem1.pcs[t := S.Idle] == s.sem.pcs;
    Rewrite(s.pcs, t, AwaitToken, TakeItem);
  }

  lemma FindsNothing<T(!new)>(s: State<T>, t: Tid, c: Choice<T>)
    requires t in s.pcs && t in s.sem.pcs && s.pcs[t].Idle? && s.sem.pcs[t].Idle? && s.sem.count <= 0
    requires c.call.TryDequeue?
    ensures Advance(s, t, c) == s
  {
    assert s.pcs[t := Idle] == s.pcs && s.sem.pcs[t := S.Idle] == s.sem.pcs;
  }

  /**
    A call of `wait_dequeue` that ends without an item has timed out: it has given its registration
    back, with nothing to be had for it.
   */
  lemma WaitEndsEmptyHanded<T(!new)>(capacity: nat, s: State<T>, t: Tid, c: Choice<T>)
    requires Inv(capacity, s) && Enabled(s, t) && Step(s, t, c).pcs[t].Idle?
    requires s.pcs[t].AwaitToken? || (s.pcs[t].Idle? && c.call.WaitDequeue?)
    requires s.sem.pcs[t].TryCas? ==> s.sem.pcs[t].thenWait
    ensures s.pcs[t].AwaitToken? && s.sem.pcs[t].RollbackCas? && s.sem.count < 0
    ensures Step(s, t, c).sem == s.sem.(count := s.sem.count + 1, pcs := s.sem.pcs[t := S.Idle])
  {
    hide S.Inv, Total;
    assert Matches(s.pcs[t], s.sem.pcs[t]);
  }
}
