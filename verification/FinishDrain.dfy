/**
  Shutting down the finish processors: each samples "all schedulers are done" before it
  drains the finish queue, and leaves only if it had sampled true before a dequeue failed.

  The queue is seen at the level of its semaphore: `stored` items, `tokens` signalled and not
  claimed, and waiters.  A timed wait fails only while the tokens are fewer than the waiters
  (Semaphore.FailedWaitIsNeutral).  The queue has room for `capacity` items; `permits` are its
  free places, and whoever enqueues waits for one (BoundedQueue).  A processor may enqueue once
  for each item it processes, when it drops the last handle on a directory.

  Crawler tasks enqueue too.  A scheduler is done only after it has read `crawlDone`, which is
  set when all tasks have ended.
 */
module FinishDrain {
  import opened MapSum

  type Pid = nat

  /** A scheduler, or a crawler task: it stores items and signals them, and is done at some time. */
  datatype Scheduler = Running | Signalling | Done

  datatype Processor =
    | Sampling(next: nat, all: bool)
    | Draining(done: bool)
    | Waiting(done: bool)
    | Processing(done: bool, mayEnqueue: bool)
    | Blocked(done: bool)
    | Enqueueing(done: bool)
    | Exited

  /** `enqueued` is history: the items that were stored. */
  datatype State = State(
    tasks: seq<Scheduler>, scheds: seq<Scheduler>, procs: map<Pid, Processor>, stored: nat, tokens: nat,
    capacity: nat, permits: nat, enqueued: nat)

  datatype Step =
    | TaskStore(k: nat)
    | TaskSignal(k: nat)
    | TaskDone(k: nat)
    | SchedStore(k: nat)
    | SchedSignal(k: nat)
    | SchedDone(k: nat)
    | Sample(p: Pid)
    | Claim(p: Pid)
    | Register(p: Pid)
    | Served(p: Pid)
    | TimedOut(p: Pid)
    | ProcWant(p: Pid)
    | ProcStore(p: Pid)
    | ProcSignal(p: Pid)
    | Finish(p: Pid)

  predicate OfProcessor(e: Step)
  {
    !(e.TaskStore? || e.TaskSignal? || e.TaskDone? || e.SchedStore? || e.SchedSignal? || e.SchedDone?)
  }

  function IsWaiting(p: Processor): nat { if p.Waiting? then 1 else 0 }

  function IsEnqueueing(p: Processor): nat { if p.Enqueueing? then 1 else 0 }

  ghost function Waiters(s: State): nat { Total(s.procs, IsWaiting) }

  ghost predicate Enabled(s: State, e: Step)
  {
    match e
    case TaskStore(k) => k < |s.tasks| && s.tasks[k].Running? && s.permits > 0
    case TaskSignal(k) => k < |s.tasks| && s.tasks[k].Signalling?
    case TaskDone(k) => k < |s.tasks| && s.tasks[k].Running?
    case SchedStore(k) => k < |s.scheds| && s.scheds[k].Running? && s.permits > 0
    case SchedSignal(k) => k < |s.scheds| && s.scheds[k].Signalling?
    case SchedDone(k) => k < |s.scheds| && s.scheds[k].Running? && AllDone(s.tasks)
    case Sample(p) => p in s.procs && s.procs[p].Sampling? && s.procs[p].next <= |s.scheds|
    case Claim(p) => p in s.procs && s.procs[p].Draining? && s.tokens > Waiters(s) && s.stored > 0
    case Register(p) => p in s.procs && s.procs[p].Draining? && s.tokens <= Waiters(s)
    case Served(p) => p in s.procs && s.procs[p].Waiting? && s.tokens > 0 && s.stored > 0
    case TimedOut(p) => p in s.procs && s.procs[p].Waiting? && s.tokens < Waiters(s)
    case ProcWant(p) => p in s.procs && s.procs[p].Processing? && s.procs[p].mayEnqueue
    case ProcStore(p) => p in s.procs && s.procs[p].Blocked? && s.permits > 0
    case ProcSignal(p) => p in s.procs && s.procs[p].Enqueueing?
    case Finish(p) => p in s.procs && s.procs[p].Processing?
  }

  /** An item goes into a free place, or out of its place. */
  function Stored(s: State): State
    requires s.permits > 0
  {
    s.(stored := s.stored + 1, permits := s.permits - 1, enqueued := s.enqueued + 1)
  }

  function Taken(s: State): State
    requires s.tokens > 0 && s.stored > 0
  {
    s.(tokens := s.tokens - 1, stored := s.stored - 1, permits := s.permits + 1)
  }

  ghost function Next(s: State, e: Step): State
    requires Enabled(s, e)
  {
    match e
    case TaskStore(k) => Stored(s.(tasks := s.tasks[k := Signalling]))
    case TaskSignal(k) => s.(tasks := s.tasks[k := Running], tokens := s.tokens + 1)
    case TaskDone(k) => s.(tasks := s.tasks[k := Done])
    case SchedStore(k) => Stored(s.(scheds := s.scheds[k := Signalling]))
    case SchedSignal(k) => s.(scheds := s.scheds[k := Running], tokens := s.tokens + 1)
    case SchedDone(k) => s.(scheds := s.scheds[k := Done])
    case Sample(p) =>
      var x := s.procs[p];
      if x.next < |s.scheds| then s.(procs := s.procs[p := Sampling(x.next + 1, x.all && s.scheds[x.next].Done?)])
      else s.(procs := s.procs[p := Draining(x.all)])
    case Claim(p) => Taken(s.(procs := s.procs[p := Processing(s.procs[p].done, true)]))
    case Register(p) => s.(procs := s.procs[p := Waiting(s.procs[p].done)])
    case Served(p) => Taken(s.(procs := s.procs[p := Processing(s.procs[p].done, true)]))
    case TimedOut(p) => s.(procs := s.procs[p := if s.procs[p].done then Exited else Sampling(0, true)])
    case ProcWant(p) => s.(procs := s.procs[p := Blocked(s.procs[p].done)])
    case ProcStore(p) => Stored(s.(procs := s.procs[p := Enqueueing(s.procs[p].done)]))
    case ProcSignal(p) => s.(procs := s.procs[p := Processing(s.procs[p].done, false)], tokens := s.tokens + 1)
    case Finish(p) => s.(procs := s.procs[p := Draining(s.procs[p].done)])
  }

  // ----- the invariant

  /** The items that schedulers have stored and not yet signalled. */
  function SchedPending(scheds: seq<Scheduler>): nat
  {
    if scheds == [] then 0 else SchedPending(scheds[1..]) + (if scheds[0].Signalling? then 1 else 0)
  }

  predicate AllDone(scheds: seq<Scheduler>) { forall k :: 0 <= k < |scheds| ==> scheds[k].Done? }

  /** What a processor has seen to be done is done. */
  predicate SampleOk(scheds: seq<Scheduler>, x: Processor)
  {
    match x
    case Sampling(n, all) => n <= |scheds| && (all ==> forall k :: 0 <= k < n ==> scheds[k].Done?)
    case Draining(d) => d ==> AllDone(scheds)
    case Waiting(d) => d ==> AllDone(scheds)
    case Processing(d, _) => d ==> AllDone(scheds)
    case Blocked(d) => d ==> AllDone(scheds)
    case Enqueueing(d) => d ==> AllDone(scheds)
    case Exited => AllDone(scheds)
  }

  predicate AllExited(procs: map<Pid, Processor>) { forall p :: p in procs ==> procs[p].Exited? }

  ghost predicate Inv(s: State)
  {
    && (forall p :: p in s.procs ==> SampleOk(s.scheds, s.procs[p]))
    && s.scheds != [] && (forall k :: 0 <= k < |s.scheds| && s.scheds[k].Done? ==> AllDone(s.tasks))
    && s.stored == s.tokens + SchedPending(s.tasks) + SchedPending(s.scheds) + Total(s.procs, IsEnqueueing)
    && (s.procs != map[] && AllExited(s.procs) ==> s.tokens == 0)
  }

  lemma {:induction false} PendingUpdate(scheds: seq<Scheduler>, k: nat, x: Scheduler)
    requires k < |scheds|
    ensures SchedPending(scheds[k := x]) == SchedPending(scheds) - (if scheds[k].Signalling? then 1 else 0) +
            (if x.Signalling? then 1 else 0)
  {
    if k == 0 {
      assert scheds[k := x][1..] == scheds[1..];
    } else {
      assert scheds[k := x][1..] == scheds[1..][k - 1 := x];
      PendingUpdate(scheds[1..], k - 1, x);
    }
  }

  lemma {:induction false} NonePending(scheds: seq<Scheduler>)
    requires AllDone(scheds)
    ensures SchedPending(scheds) == 0
  {
    if scheds != [] { NonePending(scheds[1..]); }
  }

  lemma ExitedLast(s: State)
    requires Inv(s) && s.procs != map[] && AllExited(s.procs)
    ensures AllDone(s.scheds) && AllDone(s.tasks)
  {
    var p :| p in s.procs;
    assert SampleOk(s.scheds, s.procs[p]);
    assert s.scheds[0].Done?;
  }

  lemma TaskInv(s: State, e: Step)
    requires Inv(s) && Enabled(s, e) && (e.TaskStore? || e.TaskSignal? || e.TaskDone?)
    ensures Inv(Next(s, e))
  {
    hide Total;
    var s' := Next(s, e);
    PendingUpdate(s.tasks, e.k, s'.tasks[e.k]);
    assert !AllDone(s.tasks);
    if s.procs != map[] && AllExited(s.procs) {
      ExitedLast(s);
      assert false;
    }
  }

  lemma SchedInv(s: State, e: Step)
    requires Inv(s) && Enabled(s, e) && (e.SchedStore? || e.SchedSignal? || e.SchedDone?)
    ensures Inv(Next(s, e))
  {
    hide Total;
    var s' := Next(s, e);
    PendingUpdate(s.scheds, e.k, s'.scheds[e.k]);
    forall p | p in s'.procs ensures SampleOk(s'.scheds, s'.procs[p]) { assert SampleOk(s.scheds, s.procs[p]); }
    if s.procs != map[] && AllExited(s.procs) {
      ExitedLast(s);
      assert false;
    }
  }

  lemma ProcInv(s: State, e: Step)
    requires Inv(s) && Enabled(s, e) && OfProcessor(e)
    ensures Inv(Next(s, e))
  {
    hide Total, SchedPending;
    var s' := Next(s, e);
    assert s'.procs == s.procs[e.p := s'.procs[e.p]];
    TotalUpdate(s.procs, e.p, s'.procs[e.p], IsEnqueueing);
    TotalAtLeast(s.procs, e.p, IsEnqueueing);
    assert SampleOk(s.scheds, s.procs[e.p]);
    forall p | p in s'.procs
      ensures SampleOk(s'.scheds, s'.procs[p])
    {
      assert p != e.p ==> SampleOk(s.scheds, s.procs[p]);
    }
    if AllExited(s'.procs) { LastOut(s, e); }
  }

  /** The last processor to leave is the only waiter, so no token is left. */
  lemma LastOut(s: State, e: Step)
    requires Inv(s) && Enabled(s, e) && OfProcessor(e) && AllExited(Next(s, e).procs)
    ensures Next(s, e).tokens == 0
  {
    hide Total;
    var s' := Next(s, e);
    assert s'.procs[e.p].Exited? && e.TimedOut?;
    forall p | p in s.procs && p != e.p ensures s.procs[p].Exited? { assert s'.procs[p] == s.procs[p]; }
    TotalUpdate(s.procs, e.p, Exited, IsWaiting);
    TotalZero(s'.procs, IsWaiting);
  }

  ghost predicate Goes(s: State, e: Step, s': State) { Enabled(s, e) && s' == Next(s, e) }

  /** Everyone is at the start, and the queue is empty. */
  predicate Initial(s: State)
  {
    && s.stored == s.tokens == s.enqueued == 0 && s.permits == s.capacity && s.procs != map[]
    && (forall k :: 0 <= k < |s.tasks| ==> s.tasks[k].Running?)
    && (forall k :: 0 <= k < |s.scheds| ==> s.scheds[k].Running?)
    && (forall p :: p in s.procs ==> s.procs[p] == Sampling(0, true))
  }

  ghost predicate IsRun(states: seq<State>, steps: seq<Step>)
  {
    && |states| == |steps| + 1 && Initial(states[0])
    && forall i :: 0 <= i < |steps| ==> Goes(states[i], steps[i], states[i + 1])
  }

  lemma {:induction false} NoneSignalling(scheds: seq<Scheduler>)
    requires forall k :: 0 <= k < |scheds| ==> scheds[k].Running?
    ensures SchedPending(scheds) == 0
  {
    if scheds != [] { NoneSignalling(scheds[1..]); }
  }

  lemma {:induction false} RunInv(states: seq<State>, steps: seq<Step>, i: nat)
    requires IsRun(states, steps) && i < |states| && states[0].scheds != []
    ensures Inv(states[i]) && states[i].procs != map[]
  {
    hide Inv, Next, Enabled;
    if i == 0 {
      InitInv(states[0]);
    } else {
      RunInv(states, steps, i - 1);
      var k := i - 1;
      assert Goes(states[k], steps[k], states[k + 1]);
      if OfProcessor(steps[k]) {
        ProcInv(states[k], steps[k]);
      } else if steps[k].TaskStore? || steps[k].TaskSignal? || steps[k].TaskDone? {
        TaskInv(states[k], steps[k]);
      } else {
        SchedInv(states[k], steps[k]);
      }
      ProcsStay(states[k], steps[k]);
    }
  }

  lemma ProcsStay(s: State, e: Step)
    requires Enabled(s, e) && s.procs != map[]
    ensures Next(s, e).procs != map[]
  {
    var p :| p in s.procs;
    assert p in Next(s, e).procs;
  }

  lemma InitInv(s: State)
    requires Initial(s) && s.scheds != []
    ensures Inv(s)
  {
    NoneSignalling(s.tasks);
    NoneSignalling(s.scheds);
    TotalZero(s.procs, IsEnqueueing);
  }

  /** Once the last processor has left, every task and scheduler is done and the queue is empty. */
  lemma QueueIsEmptyAtTheEnd(states: seq<State>, steps: seq<Step>, i: nat)
    requires IsRun(states, steps) && i < |states| && AllExited(states[i].procs) && states[0].scheds != []
    ensures AllDone(states[i].tasks) && AllDone(states[i].scheds) && states[i].stored == 0 && states[i].tokens == 0
  {
    RunInv(states, steps, i);
    var s := states[i];
    var p :| p in s.procs;
    assert SampleOk(s.scheds, s.procs[p]);
    assert s.scheds[0].Done?;
    NonePending(s.tasks);
    NonePending(s.scheds);
    TotalZero(s.procs, IsEnqueueing);
  }

  /** One task, no scheduler, and one processor in state `x`. */
  function Alone(x: Processor): State { State([Running], [], map[0 := x], 0, 0, 1, 1, 0) }

  function Behind(): State { State([Signalling], [], map[0 := Exited], 1, 0, 1, 0, 1) }

  lemma AloneWaiters(x: Processor)
    ensures Waiters(Alone(x)) == IsWaiting(x)
  {
    var none := map[0 := Exited];
    TotalZero(none, IsWaiting);
    TotalUpdate(none, 0, x, IsWaiting);
    assert none[0 := x] == map[0 := x];
  }

  lemma AloneSteps()
    ensures Goes(Alone(Sampling(0, true)), Sample(0), Alone(Draining(true)))
    ensures Goes(Alone(Draining(true)), Register(0), Alone(Waiting(true)))
    ensures Goes(Alone(Waiting(true)), TimedOut(0), Alone(Exited))
    ensures Goes(Alone(Exited), TaskStore(0), Behind())
  {
    hide Waiters;
    AloneWaiters(Draining(true));
    AloneWaiters(Waiting(true));
    forall x, y ensures Alone(x).procs[0 := y] == Alone(y).procs {}
  }

  /** Without any scheduler the processors do not wait for the crawler: a run that leaves an item behind. */
  lemma NoSchedulerNoWait() returns (states: seq<State>, steps: seq<Step>)
    ensures IsRun(states, steps) && states[0].scheds == []
    ensures var s := states[|steps|]; AllExited(s.procs) && s.stored == 1
  {
    AloneSteps();
    hide Goes;
    states := [Alone(Sampling(0, true)), Alone(Draining(true)), Alone(Waiting(true)), Alone(Exited), Behind()];
    steps := [Sample(0), Register(0), TimedOut(0), TaskStore(0)];
    assert 0 in states[0].procs;
  }
}
