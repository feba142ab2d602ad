/**
  Shared directory handles: a reference count, a descriptor, and for destination directories
  a one-time "delayed death" that first emits the directory's own finish job.

  A holder is anything that owns one counted reference: a crawler task's guard, a queued file
  job, a pending link, a queued directory job.  Steps are atomic accesses of any number of
  threads; `Last` is a destructor that saw the count fall from one and now acts alone.
 */
module DirectoryHandles {

  type Dir = nat
  type HolderId = nat

  /** A handle exists as long as its descriptor is open. */
  datatype Handle = Handle(rc: nat, dst: bool)

  datatype Kind = Plain | DirJob

  datatype Stage = Holding | Last | Requeued

  datatype Holder = Holder(dir: Dir, kind: Kind, stage: Stage)

  /**
    `wasDst`, `jobs` and `closes` are history: what kind of directory it is, how many finish jobs
    of its own were emitted, how many times its descriptor was closed.
   */
  datatype State = State(
    handles: map<Dir, Handle>, holders: map<HolderId, Holder>,
    wasDst: map<Dir, bool>, jobs: map<Dir, nat>, closes: map<Dir, nat>)

  datatype Step =
    | Create(d: Dir, h: HolderId, dst: bool)
    | Incref(h: HolderId, added: HolderId)
    | Drop(h: HolderId)
    | Revive(h: HolderId)
    | Emit(h: HolderId, job: HolderId)
    | CloseHandle(h: HolderId)

  /** What the code at each step relies on; a freed handle's number may be used again. */
  predicate Enabled(s: State, e: Step)
  {
    match e
    case Create(d, h, _) => d !in s.handles && h !in s.holders
    case Incref(h, f) =>
      h in s.holders && s.holders[h].stage.Holding? && s.holders[h].dir in s.handles && f !in s.holders
    case Drop(h) =>
      h in s.holders && s.holders[h].stage.Holding? && s.holders[h].dir in s.handles &&
        s.handles[s.holders[h].dir].rc >= 1
    case Revive(h) =>
      h in s.holders && s.holders[h].stage.Last? && s.holders[h].dir in s.handles && s.handles[s.holders[h].dir].dst
    case Emit(h, j) =>
      h in s.holders && s.holders[h].stage.Requeued? && s.holders[h].dir in s.handles && j !in s.holders
    case CloseHandle(h) =>
      h in s.holders && s.holders[h].stage.Last? && s.holders[h].dir in s.handles && !s.handles[s.holders[h].dir].dst
  }

  function Get(m: map<Dir, nat>, d: Dir): nat { if d in m then m[d] else 0 }

  function Next(s: State, e: Step): State
    requires Enabled(s, e)
  {
    match e
    case Create(d, h, dst) =>
      s.(handles := s.handles[d := Handle(1, dst)], holders := s.holders[h := Holder(d, Plain, Holding)],
         wasDst := s.wasDst[d := dst], jobs := s.jobs[d := 0], closes := s.closes[d := 0])
    case Incref(h, f) =>
      var d := s.holders[h].dir;
      s.(handles := s.handles[d := s.handles[d].(rc := s.handles[d].rc + 1)],
          holders := s.holders[f := Holder(d, Plain, Holding)])
    case Drop(h) =>
      var d := s.holders[h].dir;
      var s' := s.(handles := s.handles[d := s.handles[d].(rc := s.handles[d].rc - 1)]);
      if s.handles[d].rc == 1 then s'.(holders := s.holders[h := s.holders[h].(stage := Last)])
      else s'.(holders := s.holders - {h})
    case Revive(h) =>
      var d := s.holders[h].dir;
      s.(handles := s.handles[d := s.handles[d].(rc := s.handles[d].rc + 1, dst := false)],
         holders := s.holders[h := s.holders[h].(stage := Requeued)])
    case Emit(h, j) =>
      var d := s.holders[h].dir;
      s.(holders := (s.holders - {h})[j := Holder(d, DirJob, Holding)], jobs := s.jobs[d := Get(s.jobs, d) + 1])
    case CloseHandle(h) =>
      var d := s.holders[h].dir;
      s.(handles := s.handles - {d}, holders := s.holders - {h}, closes := s.closes[d := Get(s.closes, d) + 1])
  }

  // ----- the invariant

  /** The holders whose reference is counted. */
  function Counted(holders: map<HolderId, Holder>, d: Dir): set<HolderId>
  {
    set h | h in holders && holders[h].dir == d && !holders[h].stage.Last?
  }

  predicate HandleOk(s: State, d: Dir)
    requires d in s.handles
  {
    && s.handles[d].rc == |Counted(s.holders, d)|
    && d in s.wasDst && d in s.jobs && d in s.closes && s.closes[d] == 0
    && (s.handles[d].dst ==> s.wasDst[d] && s.jobs[d] == 0)
    && s.jobs[d] <= 1 && (s.jobs[d] == 1 ==> s.wasDst[d])
  }

  /** A holder's handle exists; a destructor past the count has it to itself. */
  predicate HolderOk(s: State, h: HolderId)
    requires h in s.holders
  {
    var x := s.holders[h];
    && x.dir in s.handles
    && (!x.stage.Holding? ==> forall k :: k in s.holders && k != h ==> s.holders[k].dir != x.dir)
    && (x.stage.Requeued? ==> !s.handles[x.dir].dst && x.dir in s.wasDst && s.wasDst[x.dir] && Get(s.jobs, x.dir) == 0)
    && (x.kind.DirJob? ==> Get(s.jobs, x.dir) == 1)
  }

  /** A destination directory that no longer awaits its own job has had it, or is about to. */
  predicate PromiseOk(s: State, d: Dir)
    requires d in s.handles
  {
    d in s.wasDst && s.wasDst[d] && !s.handles[d].dst ==>
      Get(s.jobs, d) == 1 || exists h :: h in s.holders && s.holders[h].dir == d && s.holders[h].stage.Requeued?
  }

  ghost predicate Inv(s: State)
  {
    && (forall d :: d in s.handles ==> HandleOk(s, d) && PromiseOk(s, d))
    && (forall h :: h in s.holders ==> HolderOk(s, h))
    && (forall d :: d in s.closes && d !in s.handles ==>
          s.closes[d] == 1 && d in s.wasDst && Get(s.jobs, d) == if s.wasDst[d] then 1 else 0)
  }

  lemma CountedUpdate(a: map<HolderId, Holder>, b: map<HolderId, Holder>, h: HolderId, d: Dir)
    requires forall k :: k != h ==> (k in a <==> k in b) && (k in a ==> a[k] == b[k])
    ensures |Counted(b, d)| == |Counted(a, d)| - (if h in Counted(a, d) then 1 else 0) +
            (if h in Counted(b, d) then 1 else 0)
  {
    var ca, cb := Counted(a, d), Counted(b, d);
    assert cb - {h} == ca - {h};
    Without(ca, h);
    Without(cb, h);
  }

  lemma Without(a: set<HolderId>, h: HolderId)
    ensures |a| == |a - {h}| + (if h in a then 1 else 0)
  {
    if h !in a { assert a - {h} == a; }
  }

  // ----- every step keeps the invariant

  lemma CreateInv(s: State, e: Step)
    requires Inv(s) && Enabled(s, e) && e.Create?
    ensures Inv(Next(s, e))
  {
    hide Counted;
    var s' := Next(s, e);
    forall d | d in s'.handles ensures HandleOk(s', d) && PromiseOk(s', d) {
      CountedUpdate(s.holders, s'.holders, e.h, d);
      if d == e.d {
        NobodyOn(s, d);
        InCounted(s'.holders, e.h, d);
      } else {
        assert HandleOk(s, d) && PromiseOk(s, d);
        NotCounted(s'.holders, e.h, d);
        NotIn(s.holders, e.h, d);
        PromiseKept(s, s', d);
      }
    }
    forall h | h in s'.holders ensures HolderOk(s', h) { if h != e.h { assert HolderOk(s, h); } }
  }

  lemma InCounted(holders: map<HolderId, Holder>, h: HolderId, d: Dir)
    ensures h in Counted(holders, d) <==> h in holders && holders[h].dir == d && !holders[h].stage.Last?
  {
  }

  lemma NotCounted(holders: map<HolderId, Holder>, h: HolderId, d: Dir)
    requires h in holders && holders[h].dir != d
    ensures h !in Counted(holders, d)
  {
  }

  lemma NotIn(holders: map<HolderId, Holder>, h: HolderId, d: Dir)
    requires h !in holders
    ensures h !in Counted(holders, d)
  {
  }

  /** A freed handle has no holders. */
  lemma NobodyOn(s: State, d: Dir)
    requires Inv(s) && d !in s.handles
    ensures |Counted(s.holders, d)| == 0
  {
    forall h | h in s.holders ensures s.holders[h].dir != d { assert HolderOk(s, h); }
    assert Counted(s.holders, d) == {};
  }

  /** A promise outlives a step that keeps the directory's flags and its requeued holders. */
  lemma PromiseKept(s: State, s': State, d: Dir)
    requires d in s.handles && d in s'.handles && PromiseOk(s, d)
    requires s'.handles[d].dst == s.handles[d].dst && d in s.wasDst && d in s'.wasDst && s'.wasDst[d] == s.wasDst[d]
    requires Get(s'.jobs, d) == Get(s.jobs, d)
    requires forall h :: h in s.holders && s.holders[h].dir == d && s.holders[h].stage.Requeued? ==>
            h in s'.holders && s'.holders[h] == s.holders[h]
    ensures PromiseOk(s', d)
  {
  }

  lemma IncrefInv(s: State, e: Step)
    requires Inv(s) && Enabled(s, e) && e.Incref?
    ensures Inv(Next(s, e))
  {
    hide Counted, PromiseOk;
    var s', c := Next(s, e), s.holders[e.h].dir;
    assert HolderOk(s, e.h);
    forall d | d in s'.handles ensures HandleOk(s', d) && PromiseOk(s', d) {
      assert HandleOk(s, d) && PromiseOk(s, d);
      CountedUpdate(s.holders, s'.holders, e.added, d);
      InCounted(s.holders, e.added, d);
      InCounted(s'.holders, e.added, d);
      PromiseKept(s, s', d);
    }
    forall h | h in s'.holders ensures HolderOk(s', h) { if h != e.added { assert HolderOk(s, h); } }
  }

  lemma DropInv(s: State, e: Step)
    requires Inv(s) && Enabled(s, e) && e.Drop?
    ensures Inv(Next(s, e))
  {
    hide Counted, PromiseOk;
    var s', c := Next(s, e), s.holders[e.h].dir;
    assert HolderOk(s, e.h) && HandleOk(s, c);
    if s.handles[c].rc == 1 { OnlyHolder(s, e.h); }
    forall d | d in s'.handles ensures HandleOk(s', d) && PromiseOk(s', d) {
      assert HandleOk(s, d) && PromiseOk(s, d);
      CountedUpdate(s.holders, s'.holders, e.h, d);
      InCounted(s.holders, e.h, d);
      InCounted(s'.holders, e.h, d);
      PromiseKept(s, s', d);
    }
    forall h | h in s'.holders ensures HolderOk(s', h) { if h != e.h { assert HolderOk(s, h); } }
  }

  /** A count of one names a single holder: everyone else has let go. */
  lemma OnlyHolder(s: State, h: HolderId)
    requires Inv(s) && h in s.holders && s.holders[h].stage.Holding? && s.holders[h].dir in s.handles
    requires s.handles[s.holders[h].dir].rc == 1
    ensures forall k :: k in s.holders && k != h ==> s.holders[k].dir != s.holders[h].dir
  {
    var d := s.holders[h].dir;
    assert HandleOk(s, d);
    forall k | k in s.holders && k != h ensures s.holders[k].dir != d {
      if s.holders[k].dir == d {
        assert HolderOk(s, k);
        assert {h, k} <= Counted(s.holders, d);
        Pair(Counted(s.holders, d), h, k);
      }
    }
  }

  lemma Pair(a: set<HolderId>, h: HolderId, k: HolderId)
    requires h in a && k in a && h != k
    ensures |a| >= 2
  {
    assert |a - {h}| == |a| - 1 && k in a - {h};
  }

  lemma ReviveInv(s: State, e: Step)
    requires Inv(s) && Enabled(s, e) && e.Revive?
    ensures Inv(Next(s, e))
  {
    hide Counted;
    var s', c := Next(s, e), s.holders[e.h].dir;
    assert HolderOk(s, e.h) && HandleOk(s, c);
    forall d | d in s'.handles ensures HandleOk(s', d) && PromiseOk(s', d) {
      assert HandleOk(s, d) && PromiseOk(s, d);
      CountedUpdate(s.holders, s'.holders, e.h, d);
      InCounted(s.holders, e.h, d);
      InCounted(s'.holders, e.h, d);
      if d == c { assert s'.holders[e.h].dir == d && s'.holders[e.h].stage.Requeued?; } else { PromiseKept(s, s', d); }
    }
    forall h | h in s'.holders ensures HolderOk(s', h) { if h != e.h { assert HolderOk(s, h); } }
  }

  lemma EmitInv(s: State, e: Step)
    requires Inv(s) && Enabled(s, e) && e.Emit?
    ensures Inv(Next(s, e))
  {
    hide Counted;
    var s', c := Next(s, e), s.holders[e.h].dir;
    var mid := s.holders - {e.h};
    assert HolderOk(s, e.h) && HandleOk(s, c);
    forall d | d in s'.handles ensures HandleOk(s', d) && PromiseOk(s', d) {
      assert HandleOk(s, d) && PromiseOk(s, d);
      CountedUpdate(s.holders, mid, e.h, d);
      CountedUpdate(mid, s'.holders, e.job, d);
      InCounted(s.holders, e.h, d);
      InCounted(mid, e.h, d);
      InCounted(mid, e.job, d);
      InCounted(s'.holders, e.job, d);
      if d != c { PromiseKept(s, s', d); }
    }
    forall h | h in s'.holders ensures HolderOk(s', h) { if h != e.job { assert HolderOk(s, h); } }
  }

  lemma CloseInv(s: State, e: Step)
    requires Inv(s) && Enabled(s, e) && e.CloseHandle?
    ensures Inv(Next(s, e))
  {
    hide Counted;
    var s', c := Next(s, e), s.holders[e.h].dir;
    assert HolderOk(s, e.h) && HandleOk(s, c) && PromiseOk(s, c);
    assert Get(s.jobs, c) == if s.wasDst[c] then 1 else 0;
    hide PromiseOk;
    forall d | d in s'.handles ensures HandleOk(s', d) && PromiseOk(s', d) {
      assert HandleOk(s, d) && PromiseOk(s, d);
      CountedUpdate(s.holders, s'.holders, e.h, d);
      InCounted(s.holders, e.h, d);
      InCounted(s'.holders, e.h, d);
      PromiseKept(s, s', d);
    }
    forall h | h in s'.holders ensures HolderOk(s', h) { assert HolderOk(s, h); }
  }

  lemma StepInv(s: State, e: Step)
    requires Inv(s) && Enabled(s, e)
    ensures Inv(Next(s, e))
  {
    hide Inv, Enabled, Next;
    match e
    case Create(_, _, _) => CreateInv(s, e);
    case Incref(_, _) => IncrefInv(s, e);
    case Drop(_) => DropInv(s, e);
    case Revive(_) => ReviveInv(s, e);
    case Emit(_, _) => EmitInv(s, e);
    case CloseHandle(_) => CloseInv(s, e);
  }

  // ----- whole runs

  ghost predicate IsRun(states: seq<State>, steps: seq<Step>)
  {
    && |states| == |steps| + 1 && states[0] == State(map[], map[], map[], map[], map[])
    && forall i :: 0 <= i < |steps| ==> Enabled(states[i], steps[i]) && states[i + 1] == Next(states[i], steps[i])
  }

  lemma {:induction false} RunInv(states: seq<State>, steps: seq<Step>, i: nat)
    requires IsRun(states, steps) && i < |states|
    ensures Inv(states[i])
  {
    hide Next, Enabled;
    if i > 0 {
      RunInv(states, steps, i - 1);
      var k := i - 1;
      assert states[k + 1] == Next(states[k], steps[k]);
      StepInv(states[k], steps[k]);
    }
  }

  /**
    In every run: whoever holds a reference finds the descriptor open; a directory's own finish
    job is emitted at most once, only for destination directories, and only when nobody else
    holds the directory; after that the descriptor is closed exactly once, with no holder left.
   */
  lemma OneJobThenOneClose(states: seq<State>, steps: seq<Step>, i: nat, d: Dir)
    requires IsRun(states, steps) && i < |states| && d in states[i].closes
    ensures var s := states[i];
            && d in s.wasDst && Get(s.jobs, d) <= 1 && (Get(s.jobs, d) == 1 ==> s.wasDst[d])
            && s.closes[d] <= 1
            && (s.closes[d] == 1 ==> d !in s.handles && (Get(s.jobs, d) == 1 <==> s.wasDst[d]))
            && (forall h :: h in s.holders && s.holders[h].dir == d ==> d in s.handles && s.closes[d] == 0)
  {
    RunInv(states, steps, i);
    var s := states[i];
    if d in s.handles { assert HandleOk(s, d); }
    forall h | h in s.holders && s.holders[h].dir == d ensures d in s.handles && s.closes[d] == 0 {
      assert HolderOk(s, h);
    }
  }

  /** When a directory's job is emitted, its emitter is the only holder. */
  lemma JobComesLast(states: seq<State>, steps: seq<Step>, i: nat)
    requires IsRun(states, steps) && i < |steps| && steps[i].Emit?
    ensures var s, h := states[i], steps[i].h;
            && h in s.holders && Get(s.jobs, s.holders[h].dir) == 0
            && (forall k :: k in s.holders && k != h ==> s.holders[k].dir != s.holders[h].dir)
  {
    RunInv(states, steps, i);
    assert HolderOk(states[i], steps[i].h);
  }

  /** Steps of the code are never taken outside the conditions they rely on. */
  lemma DropIsDefined(s: State, h: HolderId)
    requires Inv(s) && h in s.holders && s.holders[h].stage.Holding?
    ensures Enabled(s, Drop(h))
  {
    assert HolderOk(s, h);
    var d := s.holders[h].dir;
    assert HandleOk(s, d);
    assert h in Counted(s.holders, d);
  }

  // ----- nothing is abandoned

  predicate HasHolder(s: State, d: Dir) { exists h :: h in s.holders && s.holders[h].dir == d }

  /** Every open handle has somebody to close it. */
  predicate Attended(s: State) { forall d :: d in s.handles ==> HasHolder(s, d) }

  lemma StepAttended(s: State, e: Step)
    requires Inv(s) && Attended(s) && Enabled(s, e)
    ensures Attended(Next(s, e))
  {
    if e.Create? || e.Incref? {
      GainAttended(s, e);
    } else if e.Drop? || e.CloseHandle? {
      LoseAttended(s, e);
    } else {
      TurnAttended(s, e);
    }
  }

  lemma GainAttended(s: State, e: Step)
    requires Attended(s) && Enabled(s, e) && (e.Create? || e.Incref?)
    ensures Attended(Next(s, e))
  {
    var s' := Next(s, e);
    forall d | d in s'.handles ensures HasHolder(s', d) {
      if e.Create? && d == e.d {
        assert e.h in s'.holders;
      } else {
        StillHeld(s, s', d, if e.Create? then e.h else e.added);
      }
    }
  }

  lemma LoseAttended(s: State, e: Step)
    requires Inv(s) && Attended(s) && Enabled(s, e) && (e.Drop? || e.CloseHandle?)
    ensures Attended(Next(s, e))
  {
    if e.Drop? { DropAttended(s, e.h); }
    hide Inv;
    var s' := Next(s, e);
    forall d | d in s'.handles ensures HasHolder(s', d) {
      if d != s.holders[e.h].dir { StillHeld(s, s', d, e.h); }
    }
  }

  lemma TurnAttended(s: State, e: Step)
    requires Attended(s) && Enabled(s, e) && (e.Revive? || e.Emit?)
    ensures Attended(Next(s, e))
  {
    var s', d0 := Next(s, e), s.holders[e.h].dir;
    assert HasHolder(s', d0) by { var k := if e.Revive? then e.h else e.job; assert k in s'.holders; }
    forall d | d in s'.handles && d != d0 ensures HasHolder(s', d) { StillHeld(s, s', d, e.h); }
  }

  /** A holder of `d` that the step does not touch is still there. */
  lemma StillHeld(s: State, s': State, d: Dir, h0: HolderId)
    requires HasHolder(s, d) && (h0 in s.holders ==> s.holders[h0].dir != d)
    requires forall h :: h in s.holders && h != h0 ==> h in s'.holders && s'.holders[h].dir == s.holders[h].dir
    ensures HasHolder(s', d)
  {
    var h :| h in s.holders && s.holders[h].dir == d;
    assert h in s'.holders && s'.holders[h].dir == d;
  }

  lemma DropAttended(s: State, h: HolderId)
    requires Inv(s) && Enabled(s, Drop(h))
    ensures HasHolder(Next(s, Drop(h)), s.holders[h].dir)
  {
    var d, s' := s.holders[h].dir, Next(s, Drop(h));
    if s.handles[d].rc == 1 {
      assert h in s'.holders;
    } else {
      assert HandleOk(s, d);
      var k := Another(Counted(s.holders, d), h);
      assert k in s'.holders;
    }
  }

  lemma Another(a: set<HolderId>, h: HolderId) returns (k: HolderId)
    requires |a| >= 2
    ensures k in a && k != h
  {
    Without(a, h);
    assert a - {h} != {};
    k :| k in a - {h};
  }

  lemma {:induction false} RunAttended(states: seq<State>, steps: seq<Step>, i: nat)
    requires IsRun(states, steps) && i < |states|
    ensures Attended(states[i])
  {
    hide Next, Enabled;
    if i > 0 {
      RunAttended(states, steps, i - 1);
      RunInv(states, steps, i - 1);
      var k := i - 1;
      assert states[k + 1] == Next(states[k], steps[k]);
      StepAttended(states[k], steps[k]);
    }
  }

  /** Once nobody holds anything, every descriptor was closed, and each destination directory has had its job. */
  lemma AllClosedInTheEnd(states: seq<State>, steps: seq<Step>, i: nat, d: Dir)
    requires IsRun(states, steps) && i < |states| && states[i].holders == map[] && d in states[i].closes
    ensures var s := states[i];
            s.handles == map[] && s.closes[d] == 1 && d in s.wasDst && (Get(s.jobs, d) == 1 <==> s.wasDst[d])
  {
    RunInv(states, steps, i);
    RunAttended(states, steps, i);
    assert d !in states[i].handles;
  }

  /** What a holder does next is always possible; `job` is a new number. */
  lemma HolderMoves(s: State, h: HolderId, job: HolderId)
    requires Inv(s) && h in s.holders && job !in s.holders
    ensures match s.holders[h].stage
            case Holding => Enabled(s, Drop(h))
            case Last => Enabled(s, if s.handles[s.holders[h].dir].dst then Revive(h) else CloseHandle(h))
            case Requeued => Enabled(s, Emit(h, job))
  {
    assert HolderOk(s, h);
    if s.holders[h].stage.Holding? { DropIsDefined(s, h); }
  }

  /** The last holder of a directory that awaits no job closes it. */
  lemma LastOneCloses(s: State, h: HolderId)
    requires h in s.holders && s.holders[h].stage.Holding? && s.holders[h].dir in s.handles
    requires s.handles[s.holders[h].dir].rc == 1 && !s.handles[s.holders[h].dir].dst
    ensures var d := s.holders[h].dir;
            && Enabled(s, Drop(h)) && var s1 := Next(s, Drop(h));
            && Enabled(s1, CloseHandle(h)) && var s2 := Next(s1, CloseHandle(h));
            && s2.handles == s.handles - {d} && s2.holders == s.holders - {h} && s2.jobs == s.jobs
            && s2.closes == s.closes[d := Get(s.closes, d) + 1]
  {
    var d := s.holders[h].dir;
    assert s.handles[d := s.handles[d].(rc := 0)] - {d} == s.handles - {d};
    assert s.holders[h := s.holders[h].(stage := Last)] - {h} == s.holders - {h};
  }

  /** The last holder of a destination directory hands it on to its job, as the only holder there is. */
  lemma LastOneEmits(s: State, h: HolderId, job: HolderId)
    requires h in s.holders && s.holders[h].stage.Holding? && s.holders[h].dir in s.handles && job !in s.holders
    requires s.handles[s.holders[h].dir].rc == 1 && s.handles[s.holders[h].dir].dst
    ensures var d := s.holders[h].dir;
            && Enabled(s, Drop(h)) && var s1 := Next(s, Drop(h));
            && Enabled(s1, Revive(h)) && var s2 := Next(s1, Revive(h));
            && Enabled(s2, Emit(h, job)) && var s3 := Next(s2, Emit(h, job));
            && s3.handles == s.handles[d := Handle(1, false)] && s3.closes == s.closes
            && s3.holders == (s.holders - {h})[job := Holder(d, DirJob, Holding)]
            && s3.jobs == s.jobs[d := Get(s.jobs, d) + 1]
  {
    var d := s.holders[h].dir;
    var s1 := Next(s, Drop(h));
    assert s1.handles == s.handles[d := Handle(0, true)];
    var s2 := Next(s1, Revive(h));
    assert s2.handles == s.handles[d := Handle(1, false)];
    assert s2.holders - {h} == s.holders - {h};
  }
}
