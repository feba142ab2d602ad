/**
  The lightweight semaphore: a counter that threads change with atomic operations, over a
  kernel semaphore on which they only sleep when the counter is exhausted.

  Interleaved atomic steps of any number of threads.  The argument `lucky` of a step is the
  environment's choice: whether the thread goes on spinning, whether a weak compare-and-swap
  fails for no reason, whether a sleep ends by a timeout.
 */
module Semaphore {
  import opened Basics
  import opened MapSum

  type Tid = nat

  datatype Op = TryWait | Wait | TryWaitMany(max: nat) | Signal(n: nat)

  datatype Local =
    | Idle
    | TryCas(seen: int, many: nat, thenWait: bool)
    | Spin
    | SpinCas(seen: int)
    | FetchSub
    | Sleeping
    | RollbackLoad
    | RollbackTry
    | RollbackCas(seen: int)
    | Posting(left: nat)

  /** `signalled` and `acquired` are history: the tokens put in, and the tokens waits have taken. */
  datatype State = State(count: int, kernel: nat, pcs: map<Tid, Local>, signalled: nat, acquired: nat)

  predicate Enabled(s: State, t: Tid) { t in s.pcs }

  /** The way on from a failed `tryWait`. */
  function Failed(thenWait: bool): Local { if thenWait then Spin else Idle }

  /** One atomic step of thread `t`; `op` is the call that an idle thread begins. */
  function Step(s: State, t: Tid, op: Op, lucky: bool): State
    requires Enabled(s, t)
  {
    match s.pcs[t]
    case Idle =>
      match op {
        case TryWait => s.(pcs := s.pcs[t := if s.count > 0 then TryCas(s.count, 1, false) else Idle])
        case Wait => s.(pcs := s.pcs[t := if s.count > 0 then TryCas(s.count, 1, true) else Spin])
        case TryWaitMany(max) => s.(pcs := s.pcs[t := if s.count > 0 then TryCas(s.count, max, false) else Idle])
        case Signal(n) => SignalAdd(s, t, n)
      }
    case TryCas(seen, many, thenWait) =>
      if lucky && s.count == seen && seen > 0 then
        var left := if seen > many then seen - many else 0;
        s.(count := left, acquired := s.acquired + (seen - left), pcs := s.pcs[t := Idle])
      else s.(pcs := s.pcs[t := if s.count > 0 then TryCas(s.count, many, thenWait) else Failed(thenWait)])
    case Spin =>
      if !lucky then s.(pcs := s.pcs[t := FetchSub])
      else s.(pcs := s.pcs[t := if s.count > 0 then SpinCas(s.count) else Spin])
    case SpinCas(seen) =>
      if s.count == seen && seen > 0 then s.(count := seen - 1, acquired := s.acquired + 1, pcs := s.pcs[t := Idle])
      else s.(pcs := s.pcs[t := Spin])
    case FetchSub =>
      if s.count > 0 then s.(count := s.count - 1, acquired := s.acquired + 1, pcs := s.pcs[t := Idle])
      else s.(count := s.count - 1, pcs := s.pcs[t := Sleeping])
    case Sleeping =>
      if !lucky then s.(pcs := s.pcs[t := RollbackLoad])
      else if s.kernel > 0 then s.(kernel := s.kernel - 1, acquired := s.acquired + 1, pcs := s.pcs[t := Idle])
      else s
    case RollbackLoad => s.(pcs := s.pcs[t := if s.count >= 0 then RollbackTry else RollbackCas(s.count)])
    case RollbackTry =>
      if s.kernel > 0 then s.(kernel := s.kernel - 1, acquired := s.acquired + 1, pcs := s.pcs[t := Idle])
      else s.(pcs := s.pcs[t := RollbackLoad])
    case RollbackCas(seen) =>
      if s.count == seen && seen < 0 then s.(count := seen + 1, pcs := s.pcs[t := Idle])
      else s.(pcs := s.pcs[t := RollbackLoad])
    case Posting(left) =>
      if left == 0 then s.(pcs := s.pcs[t := Idle])
      else s.(kernel := s.kernel + 1, pcs := s.pcs[t := if left == 1 then Idle else Posting(left - 1)])
  }

  /** The `fetch_add` of `signal`, and how many sleepers it has to wake. */
  function SignalAdd(s: State, t: Tid, n: nat): State
    requires t in s.pcs
  {
    var toRelease := if -s.count < n then -s.count else n;
    s.(count := s.count + n, signalled := s.signalled + n,
       pcs := s.pcs[t := if toRelease > 0 then Posting(toRelease) else Idle])
  }

  // ----- the invariant

  /** The thread has decremented the counter and not yet been served or rolled back. */
  function Registered(l: Local): nat
  {
    if l.Sleeping? || l.RollbackLoad? || l.RollbackTry? || l.RollbackCas? then 1 else 0
  }

  /** The permits that a thread still has to post. */
  function Owed(l: Local): nat { if l.Posting? then l.left else 0 }

  ghost function Waiters(s: State): nat { Total(s.pcs, Registered) }

  ghost function ToPost(s: State): nat { Total(s.pcs, Owed) }

  /** The unclaimed tokens. */
  function Tokens(initial: nat, s: State): int { initial + s.signalled - s.acquired }

  /** The two laws of the semaphore. */
  ghost predicate Inv(initial: nat, s: State)
  {
    && s.count == Tokens(initial, s) - Waiters(s)
    && s.kernel + ToPost(s) == Min(Waiters(s), Tokens(initial, s))
  }

  /** Every step of every thread keeps the two laws, the rollback after a timeout included. */
  lemma StepInv(initial: nat, s: State, t: Tid, op: Op, lucky: bool)
    requires Inv(initial, s) && Enabled(s, t)
    ensures Inv(initial, Step(s, t, op, lucky))
  {
    hide Total, Waiters, ToPost;
    StepAccount(s, t, op, lucky);
  }

  /** What thread `t` contributes changes, and nothing else does. */
  lemma StepAccount(s: State, t: Tid, op: Op, lucky: bool)
    requires Enabled(s, t)
    ensures var s' := Step(s, t, op, lucky);
            && t in s'.pcs
            && Waiters(s') == Waiters(s) - Registered(s.pcs[t]) + Registered(s'.pcs[t])
            && ToPost(s') == ToPost(s) - Owed(s.pcs[t]) + Owed(s'.pcs[t])
            && Waiters(s) >= Registered(s.pcs[t]) && ToPost(s) >= Owed(s.pcs[t])
  {
    hide Total, Step;
    StepPcs(s, t, op, lucky);
    var s' := Step(s, t, op, lucky);
    TotalUpdate(s.pcs, t, s'.pcs[t], Registered);
    TotalUpdate(s.pcs, t, s'.pcs[t], Owed);
    TotalAtLeast(s.pcs, t, Registered);
    TotalAtLeast(s.pcs, t, Owed);
  }

  lemma StepPcs(s: State, t: Tid, op: Op, lucky: bool)
    requires Enabled(s, t)
    ensures var s' := Step(s, t, op, lucky); t in s'.pcs && s'.pcs == s.pcs[t := s'.pcs[t]]
  {
  }

  datatype Event = Event(t: Tid, op: Op, lucky: bool)

  ghost predicate IsRun(initial: nat, states: seq<State>, events: seq<Event>)
  {
    && |states| == |events| + 1
    && states[0].count == initial && states[0].kernel == states[0].signalled == states[0].acquired == 0
    && (forall t :: t in states[0].pcs ==> states[0].pcs[t] == Idle)
    && forall i :: 0 <= i < |events| ==>
          Enabled(states[i], events[i].t) &&
          states[i + 1] == Step(states[i], events[i].t, events[i].op, events[i].lucky)
  }

  lemma {:induction false} RunInv(initial: nat, states: seq<State>, events: seq<Event>, i: nat)
    requires IsRun(initial, states, events) && i < |states|
    ensures Inv(initial, states[i])
  {
    hide Step;
    if i == 0 {
      TotalZero(states[0].pcs, Registered);
      TotalZero(states[0].pcs, Owed);
    } else {
      RunInv(initial, states, events, i - 1);
      var k := i - 1;
      assert states[k + 1] == Step(states[k], events[k].t, events[k].op, events[k].lucky);
      StepInv(initial, states[k], events[k].t, events[k].op, events[k].lucky);
    }
  }

  /** In every interleaving: no more waits succeed than tokens were put in. */
  lemma NeverOverdrawn(initial: nat, states: seq<State>, events: seq<Event>, i: nat)
    requires IsRun(initial, states, events) && i < |states|
    ensures states[i].acquired <= initial + states[i].signalled
  {
    RunInv(initial, states, events, i);
  }

  /**
    In every interleaving, no wakeup is lost: while there are both a registered waiter and an
    unclaimed token, a kernel permit is available or some signaller is about to post one; and
    once no signaller is at work and the counter is not negative, there is one for each waiter.
   */
  lemma NoLostWakeup(initial: nat, states: seq<State>, events: seq<Event>, i: nat)
    requires IsRun(initial, states, events) && i < |states|
    ensures var s := states[i];
            && (Waiters(s) > 0 && Tokens(initial, s) > 0 ==> s.kernel > 0 || ToPost(s) > 0)
            && (s.count >= 0 && ToPost(s) == 0 ==> s.kernel == Waiters(s))
  {
    RunInv(initial, states, events, i);
  }

  /** A thread whose wait failed has given its registration back without taking a token. */
  lemma FailedWaitIsNeutral(initial: nat, s: State, t: Tid, op: Op, lucky: bool)
    requires Inv(initial, s) && Enabled(s, t) && s.pcs[t].RollbackCas? && Step(s, t, op, lucky).pcs[t] == Idle
    ensures var s' := Step(s, t, op, lucky);
            Tokens(initial, s') == Tokens(initial, s) && Waiters(s') == Waiters(s) - 1 &&
                Tokens(initial, s) < Waiters(s)
  {
    TotalUpdate(s.pcs, t, Idle, Registered);
  }

  // ----- what a wait comes to

  /** The thread is in a wait of some kind, or begins one with this step. */
  predicate InWait(l: Local, op: Op) { (l.Idle? ==> !op.Signal?) && !l.Posting? }

  /** How many tokens a call may take at once. */
  function Wanted(l: Local, op: Op): nat
  {
    if l.TryCas? then l.many else if l.Idle? && op.TryWaitMany? then op.max else 1
  }

  /**
    A wait that ends has taken as many tokens as it wanted, or all that the count showed; it ends
    without any only if the count was not positive.  No other step of a wait takes a token.
   */
  lemma WaitOutcome(s: State, t: Tid, op: Op, lucky: bool)
    requires Enabled(s, t) && InWait(s.pcs[t], op)
    ensures var s', wanted := Step(s, t, op, lucky), Wanted(s.pcs[t], op);
            && t in s'.pcs && s'.acquired >= s.acquired
            && (!s'.pcs[t].Idle? ==> s'.acquired == s.acquired)
            && (s'.pcs[t].Idle? && s.count > 0 && wanted >= 1 ==>
                  s'.acquired - s.acquired == if s.pcs[t].TryCas? then Min(s.count, wanted) else 1)
            && (s'.pcs[t].Idle? && s'.acquired == s.acquired && wanted >= 1 ==> s.count <= 0)
  {
  }

  /** Two steps: a thread that is alone takes at once what it wants, if the count shows any. */
  lemma LoneTry(s: State, t: Tid, op: Op)
    requires Enabled(s, t) && s.pcs[t].Idle? && !op.Signal? && s.count > 0
    ensures var taken := Min(s.count, if op.TryWaitMany? then op.max else 1);
            var s1 := Step(s, t, op, true);
            && Enabled(s1, t) && Step(s1, t, op, true) == s.(count := s.count - taken, acquired := s.acquired + taken)
  {
    var s1 := Step(s, t, op, true);
    assert s1.pcs[t := Idle] == s.pcs;
  }

  /** The thread has found nothing and sleeps. */
  function Asleep(s: State, t: Tid): State { s.(count := s.count - 1, pcs := s.pcs[t := Sleeping]) }

  /** With nothing there, a wait that stops spinning registers and sleeps. */
  lemma FallsAsleep(s: State, t: Tid)
    requires Enabled(s, t) && s.pcs[t].Idle? && s.count <= 0
    ensures var s1 := Step(s, t, Wait, true);
            && Enabled(s1, t) && var s2 := Step(s1, t, Wait, false);
            && Enabled(s2, t) && Step(s2, t, Wait, true) == Asleep(s, t)
  {
    Rewrite(s.pcs, t, Spin, FetchSub);
    Rewrite(s.pcs, t, FetchSub, Sleeping);
  }

  lemma Rewrite(m: map<Tid, Local>, t: Tid, x: Local, y: Local)
    ensures m[t := x][t := y] == m[t := y]
  {
  }

  /**
    A token signalled to a sleeper is handed over: from rest with nothing there, the signal posts
    a permit, and the sleeper leaves with it.
   */
  lemma HandOver(s: State, t: Tid, u: Tid)
    requires Enabled(s, t) && Enabled(s, u) && t != u && s.pcs[t].Idle? && s.pcs[u].Idle? && s.count == s.kernel == 0
    ensures var s1 := Step(Asleep(s, t), u, Signal(1), true);
            && Enabled(s1, u) && var s2 := Step(s1, u, Signal(1), true);
            && Enabled(s2, t) && s2.kernel == 1
            && Step(s2, t, Wait, true) == s.(signalled := s.signalled + 1, acquired := s.acquired + 1)
  {
    var s1 := Step(Asleep(s, t), u, Signal(1), true);
    assert s1.pcs == s.pcs[t := Sleeping][u := Posting(1)];
    var s2 := Step(s1, u, Signal(1), true);
    assert s2.pcs == s.pcs[t := Sleeping];
    assert s2.pcs[t := Idle] == s.pcs;
  }

  /** A sleeper whose time is up and to whom nothing was signalled leaves everything as it was. */
  lemma TimeOut(s: State, t: Tid)
    requires Enabled(s, t) && s.pcs[t].Idle? && s.count <= 0
    ensures var s1 := Step(Asleep(s, t), t, Wait, false);
            && Enabled(s1, t) && var s2 := Step(s1, t, Wait, true);
            && Enabled(s2, t) && Step(s2, t, Wait, true) == s
  {
    Rewrite(s.pcs, t, Sleeping, RollbackLoad);
    Rewrite(s.pcs, t, RollbackLoad, RollbackCas(s.count - 1));
    assert s.pcs[t := RollbackCas(s.count - 1)][t := Idle] == s.pcs;
  }

  /** And one whose time is up while the token is handed to it takes it all the same. */
  lemma LateSignal(s: State, t: Tid)
    requires Enabled(s, t) && s.pcs[t].RollbackLoad? && s.count >= 0 && s.kernel > 0
    ensures var s1 := Step(s, t, Wait, true);
            && Enabled(s1, t)
            && Step(s1, t, Wait, true) == s.(kernel := s.kernel - 1, acquired := s.acquired + 1,
                  pcs := s.pcs[t := Idle])
  {
    Rewrite(s.pcs, t, RollbackTry, Idle);
  }
}
