/**
  When the finish processors come to a stand: the finish queue is bounded, they are the only
  ones who take items out of it, and they put items into it themselves.
 */
module FinishStuck {
  import opened MapSum
  import opened FinishDrain

  /** A processor that has taken an item out and not finished with it. */
  function IsBusy(x: Processor): nat { if x.Processing? || x.Blocked? || x.Enqueueing? then 1 else 0 }

  /** A processor that may still signal an item for the one that it took. */
  function IsOwing(x: Processor): nat
  {
    if (x.Processing? && x.mayEnqueue) || x.Blocked? || x.Enqueueing? then 1 else 0
  }

  function IsAlive(x: Processor): nat { if x.Exited? then 0 else 1 }

  /** The queue is full, and everyone who takes items out of it waits for a place in it. */
  predicate Stuck(s: State)
  {
    s.permits == 0 && s.procs != map[] && forall p :: p in s.procs ==> s.procs[p].Blocked?
  }

  predicate HasProducer(s: State) { s.tasks != [] || s.scheds != [] }

  predicate SomeExited(s: State) { exists p :: p in s.procs && s.procs[p].Exited? }

  /**
    Places are free or filled, every item being processed was enqueued, and once a processor has
    left there are no more items left or to come than processors.
   */
  ghost predicate Account(s: State)
  {
    && s.permits + s.stored == s.capacity
    && s.enqueued >= s.stored + Total(s.procs, IsBusy)
    && (s.capacity == 0 || !HasProducer(s) ==> s.enqueued == 0)
    && (s.scheds != [] && SomeExited(s) ==> s.tokens + Total(s.procs, IsOwing) <= Total(s.procs, IsAlive))
  }

  /** What a run does not change. */
  predicate SameSetup(s: State, s': State)
  {
    && s'.capacity == s.capacity && |s'.tasks| == |s.tasks| && |s'.scheds| == |s.scheds|
    && s'.procs.Keys == s.procs.Keys
  }

  lemma InitialAccount(s: State)
    requires Initial(s)
    ensures Account(s)
  {
    TotalZero(s.procs, IsBusy);
  }

  lemma ProducerAccount(s: State, e: Step)
    requires Account(s) && Enabled(s, e) && !OfProcessor(e) && (s.scheds != [] ==> Inv(s))
    ensures Account(Next(s, e)) && SameSetup(s, Next(s, e))
  {
    hide Total;
    if s.scheds != [] && SomeExited(s) {
      AllQuiet(s);
    }
  }

  /** Once a processor has left, nobody else stores or signals. */
  lemma AllQuiet(s: State)
    requires Inv(s) && SomeExited(s)
    ensures AllDone(s.tasks) && AllDone(s.scheds)
  {
    var p :| p in s.procs && s.procs[p].Exited?;
    assert SampleOk(s.scheds, s.procs[p]);
    assert s.scheds[0].Done?;
  }

  lemma ProcessorAccount(s: State, e: Step)
    requires Account(s) && Enabled(s, e) && OfProcessor(e) && (s.scheds != [] ==> Inv(s))
    ensures Account(Next(s, e)) && SameSetup(s, Next(s, e))
  {
    hide Total, Inv;
    var s' := Next(s, e);
    assert s'.procs == s.procs[e.p := s'.procs[e.p]];
    TotalUpdate(s.procs, e.p, s'.procs[e.p], IsBusy);
    TotalUpdate(s.procs, e.p, s'.procs[e.p], IsOwing);
    TotalUpdate(s.procs, e.p, s'.procs[e.p], IsAlive);
    TotalAtLeast(s.procs, e.p, IsBusy);
    if SomeExited(s') && !SomeExited(s) {
      assert s'.procs[e.p].Exited? by { OnlyOne(s, e); }
    }
    if s'.procs[e.p].Exited? { TotalBound(s.procs, IsWaiting, IsOwing, IsAlive); }
  }

  lemma OnlyOne(s: State, e: Step)
    requires Enabled(s, e) && OfProcessor(e) && SomeExited(Next(s, e)) && !SomeExited(s)
    ensures Next(s, e).procs[e.p].Exited?
  {
    var s' := Next(s, e);
    var p :| p in s'.procs && s'.procs[p].Exited?;
    assert p in s.procs;
  }

  lemma {:induction false} RunAccount(states: seq<State>, steps: seq<Step>, i: nat)
    requires IsRun(states, steps) && i < |states|
    ensures Account(states[i]) && SameSetup(states[0], states[i])
  {
    hide Account, Inv, Enabled, Next, Initial;
    if i == 0 {
      InitialAccount(states[0]);
    } else {
      var k := i - 1;
      RunAccount(states, steps, k);
      assert Goes(states[k], steps[k], states[i]);
      if states[0].scheds != [] { RunInv(states, steps, k); }
      if OfProcessor(steps[k]) {
        ProcessorAccount(states[k], steps[k]);
      } else {
        ProducerAccount(states[k], steps[k]);
      }
    }
  }

  /** A run that gets stuck has enqueued an item for every place and every processor. */
  lemma StuckNeeds(states: seq<State>, steps: seq<Step>, i: nat)
    requires IsRun(states, steps) && i < |states| && Stuck(states[i])
    ensures var s := states[0];
            s.capacity >= 1 && HasProducer(s) && states[i].enqueued >= s.capacity + |s.procs|
  {
    hide IsRun;
    RunAccount(states, steps, i);
    var s := states[i];
    TotalOnes(s.procs, IsBusy);
    assert |s.procs| == |s.procs.Keys| && |states[0].procs| == |states[0].procs.Keys|;
    var p :| p in s.procs;
    assert s.procs.Keys != {};
  }

  /** It stays stuck: no processor moves, and nothing is stored. */
  lemma StuckForever(states: seq<State>, steps: seq<Step>, i: nat, j: nat)
    requires IsRun(states, steps) && i <= j < |states| && Stuck(states[i])
    ensures Stuck(states[j]) && states[j].procs == states[i].procs && states[j].enqueued == states[i].enqueued
    decreases j
  {
    if i < j {
      StuckForever(states, steps, i, j - 1);
      assert Goes(states[j - 1], steps[j - 1], states[j]);
    }
  }

  /** A processor can make a step. */
  ghost predicate SomeMoves(s: State) { exists e :: OfProcessor(e) && Enabled(s, e) }

  /** What a processor that is neither gone nor waiting for a place does next. */
  lemma Moves(s: State, p: Pid)
    requires Inv(s) && p in s.procs && !s.procs[p].Exited? && (s.procs[p].Blocked? ==> s.permits > 0)
    ensures SomeMoves(s)
  {
    hide Total, SchedPending;
    match s.procs[p]
    case Sampling(_, _) =>
      assert SampleOk(s.scheds, s.procs[p]);
      assert Enabled(s, Sample(p));
    case Draining(_) =>
      assert Enabled(s, if s.tokens > Waiters(s) then Claim(p) else Register(p));
    case Waiting(_) =>
      TotalAtLeast(s.procs, p, IsWaiting);
      assert Enabled(s, if s.tokens > 0 then Served(p) else TimedOut(p));
    case Processing(_, _) => assert Enabled(s, Finish(p));
    case Blocked(_) => assert Enabled(s, ProcStore(p));
    case Enqueueing(_) => assert Enabled(s, ProcSignal(p));
  }

  /** Once a processor has left, the others find places: they never wait for good. */
  lemma NotAfterExit(s: State)
    requires Inv(s) && Account(s) && s.permits == 0 && SomeExited(s)
    requires forall p :: p in s.procs ==> s.procs[p].Exited? || s.procs[p].Blocked?
    ensures AllExited(s.procs)
  {
    if p :| p in s.procs && s.procs[p].Blocked? {
      AllQuiet(s);
      NonePending(s.tasks);
      NonePending(s.scheds);
      TotalZero(s.procs, IsEnqueueing);
      TotalAtLeast(s.procs, p, IsBusy);
      SameTotal(s);
      assert false;
    }
  }

  lemma SameTotal(s: State)
    requires forall p :: p in s.procs ==> s.procs[p].Exited? || s.procs[p].Blocked?
    ensures Total(s.procs, IsOwing) == Total(s.procs, IsAlive)
  {
    assert Weights(s.procs, IsOwing) == Weights(s.procs, IsAlive);
  }

  /** In every state of every run: no processor can move exactly if all have left, or they are stuck. */
  lemma StandsIff(states: seq<State>, steps: seq<Step>, i: nat)
    requires IsRun(states, steps) && i < |states| && states[0].scheds != []
    ensures !SomeMoves(states[i]) <==> AllExited(states[i].procs) || Stuck(states[i])
  {
    hide IsRun, Inv, Account, SomeMoves;
    RunInv(states, steps, i);
    RunAccount(states, steps, i);
    var s := states[i];
    if SomeMoves(s) {
      MovingOne(s);
    } else {
      forall p | p in s.procs ensures s.procs[p].Exited? || (s.procs[p].Blocked? && s.permits == 0) {
        if !(s.procs[p].Exited? || (s.procs[p].Blocked? && s.permits == 0)) { Moves(s, p); }
      }
      if SomeExited(s) && !AllExited(s.procs) { NotAfterExit(s); }
    }
  }

  lemma MovingOne(s: State)
    requires SomeMoves(s)
    ensures !AllExited(s.procs) && !Stuck(s)
  {
    var e :| OfProcessor(e) && Enabled(s, e);
  }

  // ----- a run that gets stuck

  function Last(states: seq<State>): State
    requires states != []
  {
    states[|states| - 1]
  }

  ghost predicate Ongoing(states: seq<State>, steps: seq<Step>) { states != [] && IsRun(states, steps) }

  /** All producers are at the start of their loops, and no processor waits. */
  predicate Calm(s: State)
  {
    && HasProducer(s)
    && (forall k :: 0 <= k < |s.tasks| ==> s.tasks[k].Running?)
    && (forall k :: 0 <= k < |s.scheds| ==> s.scheds[k].Running?)
    && (forall p :: p in s.procs ==> !s.procs[p].Waiting?)
  }

  lemma Extend(states: seq<State>, steps: seq<Step>, e: Step) returns (states': seq<State>, steps': seq<Step>)
    requires Ongoing(states, steps) && Enabled(Last(states), e)
    ensures Ongoing(states', steps') && states'[0] == states[0] && Last(states') == Next(Last(states), e)
  {
    hide Enabled, Next, Initial;
    states', steps' := states + [Next(Last(states), e)], steps + [e];
  }

  /** A producer enqueues an item. */
  lemma Produce(states: seq<State>, steps: seq<Step>) returns (states': seq<State>, steps': seq<Step>)
    requires Ongoing(states, steps) && Calm(Last(states)) && Last(states).permits > 0
    ensures Ongoing(states', steps') && states'[0] == states[0]
    ensures var s := Last(states);
            Last(states') == s.(stored := s.stored + 1, tokens := s.tokens + 1, permits := s.permits - 1,
                                enqueued := s.enqueued + 1)
  {
    hide IsRun;
    var s := Last(states);
    if s.tasks != [] {
      states', steps' := Extend(states, steps, TaskStore(0));
      states', steps' := Extend(states', steps', TaskSignal(0));
      assert s.tasks[0 := Signalling][0 := Running] == s.tasks;
    } else {
      states', steps' := Extend(states, steps, SchedStore(0));
      states', steps' := Extend(states', steps', SchedSignal(0));
      assert s.scheds[0 := Signalling][0 := Running] == s.scheds;
    }
  }

  /** A processor looks at all schedulers, which are still running. */
  lemma SampleAll(states: seq<State>, steps: seq<Step>, p: Pid) returns (states': seq<State>, steps': seq<Step>)
    requires Ongoing(states, steps) && Calm(Last(states))
    requires var s := Last(states); p in s.procs && s.procs[p] == Sampling(0, true)
    ensures Ongoing(states', steps') && states'[0] == states[0]
    ensures var s := Last(states); Last(states') == s.(procs := s.procs[p := Draining(s.scheds == [])])
  {
    hide IsRun;
    var s := Last(states);
    states', steps' := states, steps;
    assert s.procs[p := Sampling(0, true)] == s.procs;
    for n := 0 to |s.scheds|
      invariant Ongoing(states', steps') && states'[0] == states[0]
      invariant Last(states') == s.(procs := s.procs[p := Sampling(n, n == 0)])
    {
      states', steps' := Extend(states', steps', Sample(p));
      Overwrite(s.procs, p, Sampling(n, n == 0), Sampling(n + 1, false));
    }
    var n := |s.scheds|;
    states', steps' := Extend(states', steps', Sample(p));
    Overwrite(s.procs, p, Sampling(n, n == 0), Draining(n == 0));
  }

  lemma Overwrite(m: map<Pid, Processor>, p: Pid, x: Processor, y: Processor)
    ensures m[p := x][p := y] == m[p := y]
  {
  }

  /** A processor takes the only item and wants to enqueue one. */
  lemma FeedOne(states: seq<State>, steps: seq<Step>, p: Pid) returns (states': seq<State>, steps': seq<Step>)
    requires Ongoing(states, steps) && Calm(Last(states)) && Last(states).permits > 0
    requires var s := Last(states); p in s.procs && s.procs[p] == Sampling(0, true) && s.stored == s.tokens == 0
    ensures Ongoing(states', steps') && states'[0] == states[0]
    ensures var s := Last(states);
            Last(states') == s.(procs := s.procs[p := Blocked(s.scheds == [])], enqueued := s.enqueued + 1)
  {
    hide IsRun, Waiters;
    var s, d := Last(states), Last(states).scheds == [];
    states', steps' := SampleAll(states, steps, p);
    states', steps' := Produce(states', steps');
    NobodyWaits(Last(states'));
    states', steps' := Extend(states', steps', Claim(p));
    Overwrite(s.procs, p, Draining(d), Processing(d, true));
    states', steps' := Extend(states', steps', ProcWant(p));
    Overwrite(s.procs, p, Processing(d, true), Blocked(d));
  }

  lemma NobodyWaits(s: State)
    requires Calm(s)
    ensures Waiters(s) == 0
  {
    TotalZero(s.procs, IsWaiting);
  }

  /** The processors in `fed` are blocked, the others at the start, and the queue is empty. */
  ghost predicate Fed(s0: State, s: State, fed: set<Pid>)
  {
    && s == s0.(procs := s.procs, enqueued := |fed|) && s.procs.Keys == s0.procs.Keys
    && forall p :: p in s.procs ==> if p in fed then s.procs[p].Blocked? else s.procs[p] == Sampling(0, true)
  }

  lemma NoneFed(s0: State)
    requires Initial(s0)
    ensures Ongoing([s0], []) && Fed(s0, s0, {})
  {
  }

  lemma FedIsCalm(s0: State, s: State, fed: set<Pid>)
    requires Initial(s0) && HasProducer(s0) && Fed(s0, s, fed)
    ensures Calm(s) && s.permits == s0.capacity && s.stored == s.tokens == 0
  {
  }

  lemma OneMoreFed(s0: State, s: State, fed: set<Pid>, p: Pid)
    requires Fed(s0, s, fed) && p in s0.procs && p !in fed
    ensures Fed(s0, s.(procs := s.procs[p := Blocked(s.scheds == [])], enqueued := s.enqueued + 1), fed + {p})
  {
  }

  lemma FeedAll(s0: State) returns (states: seq<State>, steps: seq<Step>)
    requires Initial(s0) && s0.capacity >= 1 && HasProducer(s0)
    ensures Ongoing(states, steps) && states[0] == s0 && Fed(s0, Last(states), s0.procs.Keys)
  {
    hide IsRun, Fed, Initial, Calm;
    states, steps := [s0], [];
    var fed: set<Pid> := {};
    NoneFed(s0);
    while fed != s0.procs.Keys
      invariant Ongoing(states, steps) && states[0] == s0 && Fed(s0, Last(states), fed) && fed <= s0.procs.Keys
      decreases |s0.procs.Keys - fed|
    {
      var p :| p in s0.procs.Keys - fed;
      FedIsCalm(s0, Last(states), fed);
      StillAtStart(s0, Last(states), fed, p);
      OneMoreFed(s0, Last(states), fed, p);
      states, steps := FeedOne(states, steps, p);
      assert s0.procs.Keys - (fed + {p}) == s0.procs.Keys - fed - {p};
      SmallerSet(s0.procs.Keys - (fed + {p}), s0.procs.Keys - fed, p);
      fed := fed + {p};
    }
  }

  lemma StillAtStart(s0: State, s: State, fed: set<Pid>, p: Pid)
    requires Fed(s0, s, fed) && p in s0.procs && p !in fed
    ensures p in s.procs && s.procs[p] == Sampling(0, true)
  {
  }

  lemma SmallerSet(a: set<Pid>, b: set<Pid>, p: Pid)
    requires p in b && a == b - {p}
    ensures |a| < |b|
  {
  }

  /** With a producer and a place in the queue there is a run that gets stuck, with just that many items. */
  lemma StuckReached(s0: State) returns (states: seq<State>, steps: seq<Step>)
    requires Initial(s0) && s0.capacity >= 1 && HasProducer(s0)
    ensures Ongoing(states, steps) && states[0] == s0 && Stuck(Last(states))
    ensures Last(states).enqueued == s0.capacity + |s0.procs|
  {
    hide IsRun;
    states, steps := FeedAll(s0);
    var s := Last(states);
    assert |s0.procs| == |s0.procs.Keys|;
    for n := 0 to s0.capacity
      invariant Ongoing(states, steps) && states[0] == s0
      invariant Last(states) == s.(stored := n, tokens := n, permits := s0.capacity - n, enqueued := s.enqueued + n)
    {
      states, steps := Produce(states, steps);
    }
  }

  ghost predicate StuckRun(s0: State, n: nat, states: seq<State>, steps: seq<Step>)
  {
    Ongoing(states, steps) && states[0] == s0 && Stuck(Last(states)) && Last(states).enqueued <= n
  }

  /**
    Some run that enqueues at most `n` items gets stuck exactly if `n` reaches the capacity of the
    queue and the number of the processors together, and there is a place to fill and someone to fill it.
   */
  lemma StuckIff(s0: State, n: nat)
    requires Initial(s0)
    ensures (exists states, steps :: StuckRun(s0, n, states, steps)) <==>
            s0.capacity >= 1 && HasProducer(s0) && n >= s0.capacity + |s0.procs|
  {
    hide IsRun;
    if states, steps :| StuckRun(s0, n, states, steps) {
      StuckNeeds(states, steps, |states| - 1);
    }
    if s0.capacity >= 1 && HasProducer(s0) && n >= s0.capacity + |s0.procs| {
      var states, steps := StuckReached(s0);
      assert StuckRun(s0, n, states, steps);
    }
  }

  // ----- leaving

  /** All schedulers are done, nothing is signalled, and no processor waits. */
  predicate Over(s: State)
  {
    AllDone(s.scheds) && s.tokens == 0 && forall p :: p in s.procs ==> !s.procs[p].Waiting?
  }

  /** A processor that starts to look sees that all schedulers are done. */
  lemma SeesAllDone(states: seq<State>, steps: seq<Step>, p: Pid) returns (states': seq<State>, steps': seq<Step>)
    requires Ongoing(states, steps) && Over(Last(states))
    requires var s := Last(states); p in s.procs && s.procs[p] == Sampling(0, true)
    ensures Ongoing(states', steps') && states'[0] == states[0]
    ensures var s := Last(states); Last(states') == s.(procs := s.procs[p := Draining(true)])
  {
    hide IsRun;
    var s := Last(states);
    states', steps' := states, steps;
    assert s.procs[p := Sampling(0, true)] == s.procs;
    for n := 0 to |s.scheds|
      invariant Ongoing(states', steps') && states'[0] == states[0]
      invariant Last(states') == s.(procs := s.procs[p := Sampling(n, true)])
    {
      states', steps' := Extend(states', steps', Sample(p));
      Overwrite(s.procs, p, Sampling(n, true), Sampling(n + 1, true));
    }
    states', steps' := Extend(states', steps', Sample(p));
    Overwrite(s.procs, p, Sampling(|s.scheds|, true), Draining(true));
  }

  /** When the work is over, each processor that looks again leaves, as soon as its wait times out. */
  lemma LeavesWhenOver(states: seq<State>, steps: seq<Step>, p: Pid) returns (states': seq<State>, steps': seq<Step>)
    requires Ongoing(states, steps) && Over(Last(states))
    requires var s := Last(states); p in s.procs && s.procs[p] == Sampling(0, true)
    ensures Ongoing(states', steps') && states'[0] == states[0]
    ensures var s := Last(states); Last(states') == s.(procs := s.procs[p := Exited]) && Over(Last(states'))
  {
    hide IsRun, Waiters;
    var s := Last(states);
    states', steps' := SeesAllDone(states, steps, p);
    OneWaits(s, p);
    states', steps' := Extend(states', steps', Register(p));
    Overwrite(s.procs, p, Draining(true), Waiting(true));
    states', steps' := Extend(states', steps', TimedOut(p));
    Overwrite(s.procs, p, Waiting(true), Exited);
  }

  lemma OneWaits(s: State, p: Pid)
    requires Over(s) && p in s.procs
    ensures Waiters(s.(procs := s.procs[p := Draining(true)])) == 0
    ensures Waiters(s.(procs := s.procs[p := Waiting(true)])) == 1
  {
    TotalZero(s.procs, IsWaiting);
    TotalUpdate(s.procs, p, Draining(true), IsWaiting);
    TotalUpdate(s.procs, p, Waiting(true), IsWaiting);
  }
}
