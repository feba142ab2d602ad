/**
  The bounded job queue: a kernel semaphore with one permit per free place around a blocking
  queue, which in turn is a lightweight semaphore with one token per stored item around the
  inner queue.  Any number of threads, interleaved atomic steps; the steps inside the
  lightweight semaphore are those of its own machine.  The inner queue is a multiset.
 */
module BoundedQueue {
  import opened MapSum
  import S = Semaphore

  type Tid = nat

  datatype Call<T> = Enqueue(item: T) | TryDequeue | WaitDequeue

  datatype Local<T> =
    | Idle
    | AwaitPermit(item: T)
    | Store(item: T)
    | SignalItem
    | Posting
    | AwaitToken
    | TakeItem
    | SignalPlace(item: T)

  /** `stored` and `taken` are history: the items that went in, and those that came out. */
  datatype State<T> = State(
    permits: nat, sem: S.State, items: multiset<T>, pcs: map<Tid, Local<T>>, lost: nat, stored: multiset<T>,
        taken: multiset<T>)

  /** The environment's part in a step. */
  datatype Choice<T> = Choice(call: Call<T>, lucky: bool, pick: T)

  predicate Enabled<T>(s: State<T>, t: Tid) { t in s.pcs && t in s.sem.pcs }

  /** The place in the calling code once the semaphore's `wait` has made a step. */
  function Waited<T>(before: S.State, after: S.State, t: Tid): Local<T>
    requires t in after.pcs
  {
    if !after.pcs[t].Idle? then AwaitToken else if after.acquired > before.acquired then TakeItem else Idle
  }

  function Step<T>(s: State<T>, t: Tid, c: Choice<T>): State<T>
    requires Enabled(s, t)
  {
    match s.pcs[t]
    case Idle =>
      match c.call {
        case Enqueue(x) => s.(pcs := s.pcs[t := AwaitPermit(x)])
        case TryDequeue => WaitStep(s, t, S.TryWait, c.lucky)
        case WaitDequeue => WaitStep(s, t, S.Wait, c.lucky)
      }
    case AwaitPermit(x) =>
      if s.permits > 0 then s.(permits := s.permits - 1, pcs := s.pcs[t := Store(x)]) else s
    case Store(x) =>
      if c.lucky then s.(items := s.items + multiset{x}, stored := s.stored + multiset{x},
          pcs := s.pcs[t := SignalItem])
      else s.(lost := s.lost + 1, pcs := s.pcs[t := Idle])
    case SignalItem =>
      var sem := S.Step(s.sem, t, S.Signal(1), c.lucky);
      s.(sem := sem, pcs := s.pcs[t := if sem.pcs[t].Idle? then Idle else Posting])
    case Posting =>
      var sem := S.Step(s.sem, t, S.Signal(1), c.lucky);
      s.(sem := sem, pcs := s.pcs[t := if sem.pcs[t].Idle? then Idle else Posting])
    case AwaitToken => WaitStep(s, t, S.Wait, c.lucky)
    case TakeItem =>
      if c.lucky && c.pick in s.items then
        s.(items := s.items - multiset{c.pick}, taken := s.taken + multiset{c.pick},
            pcs := s.pcs[t := SignalPlace(c.pick)])
      else s
    case SignalPlace(_) => s.(permits := s.permits + 1, pcs := s.pcs[t := Idle])
  }

  /** A step inside `tryWait` or `wait` of the semaphore. */
  function WaitStep<T>(s: State<T>, t: Tid, op: S.Op, lucky: bool): State<T>
    requires Enabled(s, t)
  {
    var sem := S.Step(s.sem, t, op, lucky);
    s.(sem := sem, pcs := s.pcs[t := Waited(s.sem, sem, t)])
  }

  // ----- the invariant

  function Storing<T>(l: Local<T>): nat { if l.Store? then 1 else 0 }

  function Unsignalled<T>(l: Local<T>): nat { if l.SignalItem? then 1 else 0 }

  function Holding<T>(l: Local<T>): nat { if l.TakeItem? then 1 else 0 }

  function Returning<T>(l: Local<T>): nat { if l.SignalPlace? then 1 else 0 }

  /** The thread's place in the semaphore matches its place in the queue. */
  predicate Matches<T>(l: Local<T>, sem: S.Local)
  {
    match l
    case AwaitToken => !sem.Idle? && !sem.Posting? && (sem.TryCas? ==> sem.many == 1)
    case Posting => sem.Posting? && sem.left > 0
    case _ => sem.Idle?
  }

  /**
    Two conservation laws: every place is free, being filled, filled, being given back, or
    lost; and every stored item has a token, has one coming, or has its taker.
   */
  ghost predicate Inv<T(!new)>(capacity: nat, s: State<T>)
  {
    && S.Inv(0, s.sem)
    && s.pcs.Keys == s.sem.pcs.Keys
    && (forall t :: t in s.pcs ==> Matches(s.pcs[t], s.sem.pcs[t]))
    && s.permits + Total(s.pcs, Storing) + |s.items| + Total(s.pcs, Returning) + s.lost == capacity
    && S.Tokens(0, s.sem) + Total(s.pcs, Unsignalled) + Total(s.pcs, Holding) == |s.items|
    && s.stored == s.items + s.taken
  }

  lemma Updates<T(!new)>(pcs: map<Tid, Local<T>>, t: Tid, l: Local<T>)
    requires t in pcs
    ensures Total(pcs[t := l], Storing) == Total(pcs, Storing) - Storing(pcs[t]) + Storing(l)
    ensures Total(pcs[t := l], Unsignalled) == Total(pcs, Unsignalled) - Unsignalled(pcs[t]) + Unsignalled(l)
    ensures Total(pcs[t := l], Holding) == Total(pcs, Holding) - Holding(pcs[t]) + Holding(l)
    ensures Total(pcs[t := l], Returning) == Total(pcs, Returning) - Returning(pcs[t]) + Returning(l)
  {
    TotalUpdate(pcs, t, l, Storing);
    TotalUpdate(pcs, t, l, Unsignalled);
    TotalUpdate(pcs, t, l, Holding);
    TotalUpdate(pcs, t, l, Returning);
  }

  /** A step of `wait` takes a token exactly when it ends successfully. */
  lemma WaitTakesOne(s: S.State, t: Tid, op: S.Op, lucky: bool)
    requires t in s.pcs && !s.pcs[t].Posting? && (s.pcs[t].TryCas? ==> s.pcs[t].many == 1)
    requires s.pcs[t].Idle? ==> op.TryWait? || op.Wait?
    ensures var s' := S.Step(s, t, op, lucky);
            && s'.signalled == s.signalled && s'.pcs == s.pcs[t := s'.pcs[t]]
            && (s'.acquired == s.acquired || (s'.acquired == s.acquired + 1 && s'.pcs[t].Idle?))
            && !s'.pcs[t].Posting? && (s'.pcs[t].TryCas? ==> s'.pcs[t].many == 1)
  {
  }

  lemma WaitInv<T(!new)>(capacity: nat, s: State<T>, t: Tid, op: S.Op, lucky: bool)
    requires Inv(capacity, s) && Enabled(s, t) && (s.pcs[t].Idle? || s.pcs[t].AwaitToken?) && (op.TryWait? || op.Wait?)
    ensures Inv(capacity, WaitStep(s, t, op, lucky))
  {
    hide S.Step, S.Inv, Total;
    var s' := WaitStep(s, t, op, lucky);
    assert Matches(s.pcs[t], s.sem.pcs[t]);
    WaitTakesOne(s.sem, t, op, lucky);
    S.StepInv(0, s.sem, t, op, lucky);
    Updates(s.pcs, t, s'.pcs[t]);
  }

  lemma SignalGivesOne(s: S.State, t: Tid, lucky: bool)
    requires t in s.pcs && (s.pcs[t].Idle? || (s.pcs[t].Posting? && s.pcs[t].left > 0))
    ensures var s' := S.Step(s, t, S.Signal(1), lucky);
            && s'.acquired == s.acquired && s'.pcs == s.pcs[t := s'.pcs[t]]
            && s'.signalled == s.signalled + (if s.pcs[t].Idle? then 1 else 0)
            && (s'.pcs[t].Idle? || (s'.pcs[t].Posting? && s'.pcs[t].left > 0))
  {
  }

  lemma SignalInv<T(!new)>(capacity: nat, s: State<T>, t: Tid, c: Choice<T>)
    requires Inv(capacity, s) && Enabled(s, t) && (s.pcs[t].SignalItem? || s.pcs[t].Posting?)
    ensures Inv(capacity, Step(s, t, c))
  {
    hide S.Step, S.Inv, Total;
    var s' := Step(s, t, c);
    assert Matches(s.pcs[t], s.sem.pcs[t]);
    SignalGivesOne(s.sem, t, c.lucky);
    S.StepInv(0, s.sem, t, S.Signal(1), c.lucky);
    Updates(s.pcs, t, s'.pcs[t]);
  }

  /** A step that leaves the semaphore alone: what remains to be shown are the two sums. */
  lemma PlainInv<T(!new)>(capacity: nat, s: State<T>, s': State<T>, t: Tid, l: Local<T>)
    requires Inv(capacity, s) && Enabled(s, t) && s'.sem == s.sem && s'.pcs == s.pcs[t := l]
    requires !s.pcs[t].AwaitToken? && !s.pcs[t].Posting? && !l.AwaitToken? && !l.Posting?
    requires s'.permits + Storing(l) + |s'.items| + Returning(l) + s'.lost == s.permits + Storing(s.pcs[t]) +
            |s.items| + Returning(s.pcs[t]) + s.lost
    requires |s'.items| - Unsignalled(l) - Holding(l) == |s.items| - Unsignalled(s.pcs[t]) - Holding(s.pcs[t])
    requires s'.stored == s'.items + s'.taken
    ensures Inv(capacity, s')
  {
    hide S.Inv, Total;
    assert Matches(s.pcs[t], s.sem.pcs[t]);
    Updates(s.pcs, t, l);
  }

  lemma StoreInv<T(!new)>(capacity: nat, s: State<T>, t: Tid, c: Choice<T>)
    requires Inv(capacity, s) && Enabled(s, t) && s.pcs[t].Store?
    ensures Inv(capacity, Step(s, t, c))
  {
    hide S.Inv, Total, S.Step, Matches;
    PlainInv(capacity, s, Step(s, t, c), t, if c.lucky then SignalItem else Idle);
  }

  lemma TakeInv<T(!new)>(capacity: nat, s: State<T>, t: Tid, c: Choice<T>)
    requires Inv(capacity, s) && Enabled(s, t) && s.pcs[t].TakeItem? && c.lucky && c.pick in s.items
    ensures Inv(capacity, Step(s, t, c))
  {
    hide S.Inv, Total, S.Step, Matches;
    PlainInv(capacity, s, Step(s, t, c), t, SignalPlace(c.pick));
  }

  lemma StepInv<T(!new)>(capacity: nat, s: State<T>, t: Tid, c: Choice<T>)
    requires Inv(capacity, s) && Enabled(s, t)
    ensures Inv(capacity, Step(s, t, c))
  {
    hide S.Inv, Total, S.Step, Matches;
    match s.pcs[t]
    case Idle =>
      match c.call {
        case Enqueue(x) => PlainInv(capacity, s, Step(s, t, c), t, AwaitPermit(x));
        case TryDequeue => WaitInv(capacity, s, t, S.TryWait, c.lucky);
        case WaitDequeue => WaitInv(capacity, s, t, S.Wait, c.lucky);
      }
    case AwaitPermit(x) => if s.permits > 0 { PlainInv(capacity, s, Step(s, t, c), t, Store(x)); }
    case Store(x) => StoreInv(capacity, s, t, c);
    case SignalItem => SignalInv(capacity, s, t, c);
    case Posting => SignalInv(capacity, s, t, c);
    case AwaitToken => WaitInv(capacity, s, t, S.Wait, c.lucky);
    case TakeItem => if c.lucky && c.pick in s.items { TakeInv(capacity, s, t, c); }
    case SignalPlace(_) => PlainInv(capacity, s, Step(s, t, c), t, Idle);
  }

  // ----- whole runs

  datatype Event<T> = Event(t: Tid, c: Choice<T>)

  ghost predicate Init<T(!new)>(capacity: nat, s: State<T>)
  {
    && s.permits == capacity && s.items == multiset{} && s.lost == 0 && s.stored == s.taken == multiset{}
    && s.sem == S.State(0, 0, s.sem.pcs, 0, 0) && s.pcs.Keys == s.sem.pcs.Keys
    && (forall t :: t in s.pcs ==> s.pcs[t].Idle? && s.sem.pcs[t].Idle?)
  }

  ghost predicate IsRun<T(!new)>(capacity: nat, states: seq<State<T>>, events: seq<Event<T>>)
  {
    && |states| == |events| + 1 && Init(capacity, states[0])
    && forall i :: 0 <= i < |events| ==>
          Enabled(states[i], events[i].t) && states[i + 1] == Step(states[i], events[i].t, events[i].c)
  }

  lemma InitInv<T(!new)>(capacity: nat, s: State<T>)
    requires Init(capacity, s)
    ensures Inv(capacity, s)
  {
    TotalZero(s.pcs, Storing);
    TotalZero(s.pcs, Unsignalled);
    TotalZero(s.pcs, Holding);
    TotalZero(s.pcs, Returning);
    TotalZero(s.sem.pcs, S.Registered);
    TotalZero(s.sem.pcs, S.Owed);
  }

  lemma {:induction false} RunInv<T(!new)>(capacity: nat, states: seq<State<T>>, events: seq<Event<T>>, i: nat)
    requires IsRun(capacity, states, events) && i < |states|
    ensures Inv(capacity, states[i])
  {
    hide Inv, Step;
    if i == 0 {
      InitInv(capacity, states[0]);
    } else {
      RunInv(capacity, states, events, i - 1);
      var k := i - 1;
      assert states[k + 1] == Step(states[k], events[k].t, events[k].c);
      StepInv(capacity, states[k], events[k].t, events[k].c);
    }
  }

  /**
    In every interleaving the queue holds at most `capacity` items, and what was taken out is
    what was put in; places are conserved exactly as long as no inner enqueue failed, each
    failure losing one place for good.
   */
  lemma CapacityKept<T(!new)>(capacity: nat, states: seq<State<T>>, events: seq<Event<T>>, i: nat)
    requires IsRun(capacity, states, events) && i < |states|
    ensures var s := states[i];
            && |s.items| <= capacity - s.lost
            && s.stored == s.items + s.taken
            && (s.permits + Total(s.pcs, Storing) + |s.items| + Total(s.pcs, Returning) == capacity <==> s.lost == 0)
  {
    RunInv(capacity, states, events, i);
  }

  /** A consumer that holds a token never faces an empty inner queue. */
  lemma TokenMeansItem<T(!new)>(capacity: nat, states: seq<State<T>>, events: seq<Event<T>>, i: nat, t: Tid)
    requires IsRun(capacity, states, events) && i < |states| && t in states[i].pcs && states[i].pcs[t].TakeItem?
    ensures |states[i].items| > 0 && exists x :: x in states[i].items
  {
    RunInv(capacity, states, events, i);
    TotalAtLeast(states[i].pcs, t, Holding);
    assert states[i].items != multiset{};
  }

  /** When every thread is idle, the tokens, the places and the items agree. */
  lemma Quiescent<T(!new)>(capacity: nat, s: State<T>)
    requires Inv(capacity, s) && forall t :: t in s.pcs ==> s.pcs[t].Idle?
    ensures s.sem.count == |s.items| && s.permits + |s.items| == capacity - s.lost && s.sem.kernel == 0
  {
    forall t | t in s.sem.pcs ensures s.sem.pcs[t].Idle? { assert Matches(s.pcs[t], s.sem.pcs[t]); }
    TotalZero(s.pcs, Storing);
    TotalZero(s.pcs, Unsignalled);
    TotalZero(s.pcs, Holding);
    TotalZero(s.pcs, Returning);
    TotalZero(s.sem.pcs, S.Registered);
    TotalZero(s.sem.pcs, S.Owed);
  }
}
