/** Whole runs of the transfer scheduler: what is true in every state, and of every file handed over. */
module SchedulerRuns {
  import opened Basics
  import opened FileJobs
  import opened SchedulerSpec
  import opened SchedulerInv
  import opened SchedulerSteps
  import opened SchedulerPasses
  import opened Cardinality

  lemma InvPending(c: Config, s: State)
    requires Inv(c, s, -1)
    ensures Shape(c, s) && Pending(c, s)
  {
  }

  lemma SameSizes(c: Config, s: State, t: State)
    requires Shape(c, s) && Shape(c, t)
    ensures |t.files| == |s.files| == c.nFile && |t.blocks| == |s.blocks|
  {
  }

  lemma UpdateSlotKeeps(c: Config, s: State, k: int)
    requires Inv(c, s, -1) && IsSlot(c, s, k)
    ensures Inv(c, UpdateSlot(c, s, k), -1)
  {
    hide Inv, UpdateBlock;
    if FileOf(c, s, k).active && s.blocks[k].inUse { UpdateBlockKeeps(c, s, k); }
  }

  lemma {:induction false} UpdateBlocksKeeps(c: Config, s: State, n: nat)
    requires Inv(c, s, -1) && n <= |s.blocks|
    ensures Inv(c, UpdateBlocks(c, s, n), -1)
  {
    hide Inv, UpdateSlot, Shape, Pending;
    InvPending(c, s);
    if n > 0 {
      UpdateBlocksKeeps(c, s, n - 1);
      var t := UpdateBlocks(c, s, n - 1);
      SameSizes(c, s, t);
      UpdateSlotKeeps(c, t, n - 1);
    }
  }

  lemma UpdateFileKeeps(c: Config, s: State, i: int, memory: Memory)
    requires Inv(c, s, -1) && 0 <= i < |s.files|
    ensures Inv(c, UpdateFile(c, s, i, memory), -1)
  {
    hide Inv, ClearFile, ScheduleBlock, FirstIdle, Shape, Pending;
    InvPending(c, s);
    var f := s.files[i];
    if f.active && f.nFinished >= Count(f) {
      HandKeeps(c, s, i);
    } else if f.active {
      var k := FirstIdle(c, s, i, 0);
      if Issued(f) < Count(f) && k < |s.blocks| {
        InvAt(c, s, k, -1);
        ScheduleKeeps(c, s, k, false, memory);
      }
    }
  }

  lemma {:induction false} UpdateFilesKeeps(c: Config, s: State, memory: seq<Memory>, n: nat)
    requires Inv(c, s, -1) && |memory| == c.nFile && n <= c.nFile
    ensures Inv(c, UpdateFiles(c, s, memory, n), -1)
  {
    hide Inv, UpdateFile, Shape, Pending;
    InvPending(c, s);
    if n > 0 {
      UpdateFilesKeeps(c, s, memory, n - 1);
      var t := UpdateFiles(c, s, memory, n - 1);
      SameSizes(c, s, t);
      UpdateFileKeeps(c, t, n - 1, memory[n - 1]);
    }
  }

  lemma {:induction false} AcceptJobsKeeps(c: Config, s: State, i: nat, jobs: seq<Job>)
    requires Inv(c, s, -1) && i <= c.nFile
    ensures Inv(c, AcceptJobs(c, s, i, jobs), -1)
    decreases c.nFile - i
  {
    hide Inv, Accept, Shape, Pending;
    InvPending(c, s);
    if i < c.nFile {
      if s.files[i].active {
        AcceptJobsKeeps(c, s, i + 1, jobs);
      } else if jobs != [] {
        AcceptKeeps(c, s, i, jobs[0]);
        InvPending(c, Accept(c, s, i, jobs[0]));
        AcceptJobsKeeps(c, Accept(c, s, i, jobs[0]), i + 1, jobs[1..]);
      }
    }
  }

  lemma PassesKeep(c: Config, s: State, e: Choices)
    requires Inv(c, s, -1) && |e.memory| == c.nFile
    ensures Inv(c, Passes(c, s, e), -1) && BatchInRange(Passes(c, s, e))
  {
    hide Inv, UpdateBlocks, UpdateFiles, AcceptJobs, Pending, BatchInRange, Shape;
    InvPending(c, s);
    UpdateBlocksKeeps(c, s, |s.blocks|);
    UpdateFilesKeeps(c, UpdateBlocks(c, s, |s.blocks|), e.memory, c.nFile);
    AcceptJobsKeeps(c, UpdateFiles(c, UpdateBlocks(c, s, |s.blocks|), e.memory, c.nFile), 0, e.jobs);
    InvPending(c, Passes(c, s, e));
    BatchFits(c, Passes(c, s, e));
  }

  /** A turn of `schedulerUpdate`, or a report of the kernel during its tick. */
  datatype Event = Turn(choices: Choices) | Report(slot: int, res: int, other: seq<byte>)

  ghost predicate Step(c: Config, s: State, ev: Event, s': State)
  {
    Shape(c, s) &&
    match ev
    case Turn(e) =>
      Fair(c, e) && var p := Passes(c, s, e); BatchInRange(p) && s' == SubmitBatch(c, p, e.submit(|p.batch|))
    case Report(k, res, other) =>
      k in s.kernel && IsSlot(c, s, k) && s' == Complete(c, s, k, res, other)
  }

  lemma StepKeeps(c: Config, s: State, ev: Event, s': State)
    requires Inv(c, s, -1) && Step(c, s, ev, s')
    ensures Inv(c, s', -1)
  {
    hide Inv, Passes, SubmitBatch, Complete, BatchInRange;
    match ev
    case Turn(e) =>
      PassesKeep(c, s, e);
      SubmitKeeps(c, Passes(c, s, e), e.submit(|Passes(c, s, e).batch|));
    case Report(k, res, other) =>
      CompleteKeeps(c, s, k, res, other);
  }

  /** A turn is never stuck: the batch it submits names slots only. */
  lemma TurnIsDefined(c: Config, s: State, e: Choices) returns (s': State)
    requires Inv(c, s, -1) && Fair(c, e)
    ensures Step(c, s, Turn(e), s')
  {
    hide Passes, SubmitBatch, BatchInRange;
    PassesKeep(c, s, e);
    s' := SubmitBatch(c, Passes(c, s, e), e.submit(|Passes(c, s, e).batch|));
  }

  ghost predicate IsRun(c: Config, ss: seq<State>, evs: seq<Event>)
  {
    && |ss| == |evs| + 1 && ss[0] == Empty(c)
    && forall i :: 0 <= i < |evs| ==> Step(c, ss[i], evs[i], ss[i + 1])
  }

  lemma RunLength(c: Config, ss: seq<State>, evs: seq<Event>)
    requires IsRun(c, ss, evs)
    ensures |ss| == |evs| + 1
  {
  }

  lemma RunStep(c: Config, ss: seq<State>, evs: seq<Event>, i: nat)
    requires IsRun(c, ss, evs) && i < |evs|
    ensures i + 1 < |ss| && Step(c, ss[i], evs[i], ss[i + 1])
  {
  }

  /** Every state of every run satisfies the invariant. */
  lemma {:induction false} RunInv(c: Config, ss: seq<State>, evs: seq<Event>, n: nat)
    requires IsRun(c, ss, evs) && n < |ss|
    ensures Inv(c, ss[n], -1)
  {
    hide Inv, Step, Empty;
    if n == 0 {
      EmptyShape(c);
      Empties(c);
    } else {
      RunInv(c, ss, evs, n - 1);
      assert Step(c, ss[n - 1], evs[n - 1], ss[n - 1 + 1]);
      StepKeeps(c, ss[n - 1], evs[n - 1], ss[n]);
    }
  }

  // ---- what the invariant means ----

  /** An accepted job is worked on in one file slot, or was handed over once, and not both. */
  lemma HandedOverOnce(c: Config, s: State, t: int)
    requires Inv(c, s, -1) && 0 <= t < s.accepted
    ensures Working(s, t) != HandedOver(s, t)
    ensures forall i, j :: 0 <= i < |s.handed| && 0 <= j < |s.handed| && s.handed[i].ticket == s.handed[j].ticket ==>
            i == j
  {
    hide FileOk, SlotOk, Pending, Held, Delivered, Distinct, Shape;
    forall i, j | 0 <= i < |s.handed| && 0 <= j < |s.handed| && s.handed[i].ticket == s.handed[j].ticket
      ensures i == j
    {
    }
  }

  /** A file is ready to be handed over only when no block slot, buffer or request of it is left. */
  lemma ReadyIsQuiet(c: Config, s: State, i: int, k: int)
    requires Inv(c, s, -1) && 0 <= i < |s.files| && s.files[i].active && s.files[i].nFinished >= Count(s.files[i])
    requires 0 <= k < |s.blocks| && Parent(c, k) == i
    ensures !s.blocks[k].inUse && s.blocks[k].data.None? && k !in s.batch && k !in s.kernel
  {
    hide FileOk, SlotOk, Held, Delivered, Distinct, Tickets, ClearFile, Pending;
    HandKeeps(c, s, i);
    RestingIf(c, s, k);
  }

  /** With no file left, nothing is outstanding and no memory is held. */
  lemma IdleIsClean(c: Config, s: State)
    requires Inv(c, s, -1) && forall i :: 0 <= i < |s.files| ==> !s.files[i].active
    ensures s.batch == [] && s.kernel == {} && s.totalMem == 0
    ensures forall k :: 0 <= k < |s.blocks| ==> !s.blocks[k].inUse && s.blocks[k].data.None?
    ensures forall t :: 0 <= t < s.accepted ==> HandedOver(s, t)
  {
    hide FileOk, SlotBytes, Held, Delivered, Distinct, Pending;
    forall k | 0 <= k < |s.blocks| ensures !s.blocks[k].inUse && s.blocks[k].data.None? {
      ShapeAt(c, s, k);
      assert SlotOk(c, FileOf(c, s, k), s.blocks[k]);
    }
    HeldNothing(c, s, |s.blocks|);
    assert forall k :: !Outstanding(s, k);
    NothingPending(c, s);
  }

  lemma NothingPending(c: Config, s: State)
    requires Shape(c, s) && Pending(c, s) && forall k :: !Outstanding(s, k)
    ensures s.batch == [] && s.kernel == {}
  {
    assert forall k :: k !in s.kernel;
    if s.batch != [] {
      FirstOutstanding(c, s);
      assert false;
    }
  }

  lemma FirstOutstanding(c: Config, s: State)
    requires Shape(c, s) && Pending(c, s) && s.batch != []
    ensures Outstanding(s, s.batch[0])
  {
    assert s.batch[0] in s.batch;
  }

  /** The batch and the kernel together hold at most one request for each slot, so an addition never overflows. */
  lemma BatchHasRoom(c: Config, s: State, k: int)
    requires Shape(c, s) && Pending(c, s) && 0 <= k < |s.blocks| && Resting(s, k)
    ensures |s.batch| + |s.kernel| < c.nFile * c.nPer
  {
    var inBatch := set l | l in s.batch;
    NoRepeatsSize(s.batch, inBatch);
    var all := inBatch + s.kernel + {k};
    forall l | l in all ensures 0 <= l < |s.blocks| {
      if l in inBatch { assert Outstanding(s, l); }
    }
    TooMany(all, |s.blocks|);
    assert inBatch !! s.kernel;
    assert |inBatch + s.kernel| == |inBatch| + |s.kernel|;
    assert k !in inBatch + s.kernel;
  }

  lemma {:induction false} NoRepeatsSize(q: seq<int>, m: set<int>)
    requires NoRepeats(q) && m == set l | l in q
    ensures |m| == |q|
  {
    if q != [] {
      var n := |q| - 1;
      var p := q[..n];
      var m' := set l | l in p;
      NoRepeatsSize(p, m');
      assert q == p + [q[n]];
      assert q[n] !in p;
      assert m == m' + {q[n]};
    }
  }

  /** A block is started under a number that was never used before. */
  lemma StartedIsNew(c: Config, s: State, k: int, l: int)
    requires Inv(c, s, -1) && IsSlot(c, s, k)
    requires 0 <= l < |s.blocks| && s.blocks[l].inUse && Parent(c, l) == Parent(c, k)
    ensures var f := FileOf(c, s, k);
            Issued(f) !in f.finished && s.blocks[l].jobno < Issued(f) && s.blocks[l].jobno !in f.finished
    ensures l != k && s.blocks[k].inUse ==> s.blocks[l].jobno != s.blocks[k].jobno
  {
    hide FileBytes, SlotBytes, Held, Delivered, Pending, Tickets;
    assert FileOk(FileOf(c, s, k)) && SlotOk(c, FileOf(c, s, l), s.blocks[l]);
  }

  /** A padded write stays inside its buffer and inside the destination, and meets no other block of the file. */
  lemma PaddedWritesStay(c: Config, s: State, k: int, b: int)
    requires Inv(c, s, -1) && IsSlot(c, s, k) && s.blocks[k].inUse && Aligned(FileOf(c, s, k))
    requires 0 <= b < Count(FileOf(c, s, k)) && b != s.blocks[k].jobno
    ensures var f, j := FileOf(c, s, k), s.blocks[k];
            j.cbBytes <= |Buffer(j)| && j.offset + j.cbBytes <= |f.dst| &&
                (j.offset + j.cbBytes <= Lo(f, b) || Hi(f, b) <= j.offset)
  {
    hide Held, Delivered, Pending, Tickets, Stage, AlignUp, Count, Lo, Hi, Inv;
    InvAt(c, s, k, -1);
    var f, j := FileOf(c, s, k), s.blocks[k];
    InsideSource(f, j);
    PartBounds(f, j.jobno);
    PartsApart(f, b, j.jobno);
  }

  /** Readback finds the bytes it expects, if the block's requests were completed in full. */
  lemma ReadbackAgrees(c: Config, s: State, k: int)
    requires Inv(c, s, -1) && IsSlot(c, s, k) && s.blocks[k].inUse && s.blocks[k].kind == READDST
    requires s.blocks[k].status == 0
    requires Aligned(FileOf(c, s, k)) && s.blocks[k].jobno !in FileOf(c, s, k).spoiled
    ensures Mismatch(c, s.blocks[k]) == 0
  {
    hide Inv;
    InvAt(c, s, k, -1);
    DoneIsCopied(c, FileOf(c, s, k), s.blocks[k]);
  }

  /** The final `ftruncate` of `finishProcessorOne`. */
  function Truncated(d: seq<byte>, size: nat): seq<byte>
  {
    if size <= |d| then d[..size] else d + Zeros(size - |d|)
  }

  /**
    Of a file handed over, each block whose requests were completed in full is right, whatever
    happened to the others.
   */
  lemma DeliveredBlock(f: FileJob, b: int)
    requires Delivered(f) && Aligned(f) && 0 <= b < Count(f) && b !in f.spoiled
    ensures Bytes(Truncated(f.dst, |f.src|), Lo(f, b), Hi(f, b)) == Bytes(f.src, Lo(f, b), Hi(f, b))
    ensures |Bytes(f.src, Lo(f, b), Hi(f, b))| == Hi(f, b) - Lo(f, b)
  {
    hide AlignUp, Count, Lo, Hi;
    AlignUpLeast(|f.src|);
    PartBounds(f, b);
    assert Copied(f, b);
    var d := Truncated(f.dst, |f.src|);
    PrefixSlice(f.dst, |f.src|, Lo(f, b), Hi(f, b));
  }

  lemma PrefixSlice(s: seq<byte>, n: nat, lo: nat, hi: nat)
    requires lo <= hi <= n <= |s|
    ensures s[..n][lo..hi] == s[lo..hi]
  {
  }

  /**
    If all requests of a file were completed in full, the truncated destination is the source, and
    no error is counted.
   */
  lemma DeliveredFile(f: FileJob)
    requires Delivered(f) && Aligned(f) && f.spoiled == {}
    ensures Truncated(f.dst, |f.src|) == f.src && f.nErrors == 0
    ensures f.dst == f.src + Zeros(|f.dst| - |f.src|)
  {
    hide Count, Lo, Hi, AlignUp;
    AlignUpLeast(|f.src|);
    var d := Truncated(f.dst, |f.src|);
    forall p | 0 <= p < |f.src| ensures d[p] == f.src[p] {
      var b := BlockOf(f, p);
      DeliveredBlock(f, b);
      var q := p - Lo(f, b);
      assert Bytes(d, Lo(f, b), Hi(f, b))[q] == Bytes(f.src, Lo(f, b), Hi(f, b))[q];
    }
    assert TailClean(f);
    WithTail(f);
  }

  lemma WithTail(f: FileJob)
    requires |f.src| <= |f.dst| && Truncated(f.dst, |f.src|) == f.src && TailClean(f)
    ensures f.dst == f.src + Zeros(|f.dst| - |f.src|)
  {
    var tail := Bytes(f.dst, |f.src|, |f.dst|);
    assert f.dst == f.dst[..|f.src|] + tail;
    assert tail == Zeros(|tail|);
  }

  /** Every position of the file lies in one of its blocks. */
  lemma BlockOf(f: FileJob, p: nat) returns (b: nat)
    requires Aligned(f) && p < |f.src|
    ensures b < Count(f) && 0 <= Lo(f, b) <= p < Hi(f, b) <= |f.src|
  {
    b := p / f.blockSize;
    assert p == f.blockSize * b + p % f.blockSize;
    StartsInside(f, b);
  }

  /** The main result on bytes: over every run, with every order of reports. */
  lemma RunDelivers(c: Config, ss: seq<State>, evs: seq<Event>, n: nat, i: nat)
    requires IsRun(c, ss, evs) && n < |ss| && i < |ss[n].handed|
    ensures var f := ss[n].handed[i];
            && f.nScheduled == 0 && f.nFinished == Count(f)
            && (Aligned(f) && f.spoiled == {} ==>
                  Truncated(f.dst, |f.src|) == f.src && f.dst == f.src + Zeros(|f.dst| - |f.src|) && f.nErrors == 0)
  {
    RunInv(c, ss, evs, n);
    var f := ss[n].handed[i];
    assert Delivered(f);
    hide Inv, Delivered, IsRun, Truncated, Aligned;
    DeliveredCounts(f);
    if Aligned(f) && f.spoiled == {} { DeliveredFile(f); }
  }

  lemma DeliveredCounts(f: FileJob)
    requires Delivered(f)
    ensures f.nScheduled == 0 && f.nFinished == Count(f)
  {
    hide FileBytes, Count;
    assert f.nFinished in f.finished ==> f.nFinished < Issued(f);
  }

  /** A request that failed is counted as finished, and not as an error. */
  lemma FailureIsNotCounted(c: Config, s: State, k: int)
    requires Inv(c, s, -1) && IsSlot(c, s, k) && s.blocks[k].inUse && s.blocks[k].status != 0
    requires s.blocks[k].status != EINPROGRESS
    ensures var f, g := FileOf(c, s, k), FileOf(c, UpdateBlock(c, s, k), k);
            g.nErrors == f.nErrors && g.nFinished == f.nFinished + 1 &&
              g.finished == f.finished + {s.blocks[k].jobno} && |g.finished| == |f.finished| + 1
  {
    hide Inv;
    InvAt(c, s, k, -1);
  }

  // ---- a run that fails silently ----

  function OneSlot(hash: seq<byte> -> int): Config { Config(1, 1, false, false, hash) }

  function OneFile(scheduled: int, finished: int, done: set<int>, spoiled: set<int>): FileJob
  {
    FileJob(true, 0, [1], Zeros(4096), 4096, scheduled, finished, 0, done, spoiled, spoiled, {})
  }

  function OneBlock(status: int): Block { Block(true, 0, READ, status, 0, 1, 1, Some(seq(4096, _ => 0)), 0) }

  function Accepted(): State { State([OneFile(0, 0, {}, {})], [Idle(None)], [], {}, [], 1, 0) }

  function Reading(): State { State([OneFile(1, 0, {}, {})], [OneBlock(EINPROGRESS)], [], {0}, [], 1, 4096) }

  function Failed(): State { State([OneFile(1, 0, {}, {0})], [OneBlock(EIO)], [], {}, [], 1, 4096) }

  function Gone(): State { State([NoFile()], [Idle(None)], [], {}, [OneFile(0, 1, {0}, {0})], 1, 0) }

  lemma TurnAccepts(c: Config, e: Choices)
    requires c.nFile == c.nPer == 1 && Fair(c, e) && e.jobs == [Job([1], 4096)]
    ensures Step(c, Empty(c), Turn(e), Accepted())
  {
    var s := Empty(c);
    assert Shape(c, s) by { EmptyShape(c); }
    assert UpdateBlocks(c, s, 1) == s;
    assert UpdateFiles(c, s, e.memory, 1) == s;
    assert AlignUp(1) == 4096;
    var t := Accept(c, s, 0, e.jobs[0]);
    assert e.jobs[1..] == [];
    assert AcceptJobs(c, t, 1, []) == t;
    assert t.files == [OneFile(0, 0, {}, {})];
    assert t.blocks == [Idle(None)];
  }

  ghost predicate OneShape(c: Config, s: State) { c.nFile == c.nPer == 1 && |s.files| == |s.blocks| == 1 }

  lemma OneIsShape(c: Config, s: State)
    requires OneShape(c, s)
    ensures Shape(c, s) && Parent(c, 0) == 0
  {
  }

  lemma TurnReads(c: Config, e: Choices)
    requires c.nFile == c.nPer == 1 && Fair(c, e) && e.jobs == [] && e.memory == [Some(_ => 0)] && e.submit(1) == 1
    ensures Step(c, Accepted(), Turn(e),
                 Reading())
  {
    var s := Accepted();
    OneIsShape(c, s);
    assert UpdateBlocks(c, s, 1) == s;
    var t := State([OneFile(1, 0, {}, {})], [OneBlock(EINPROGRESS)], [0], {}, [], 1, 4096);
    OneIsShape(c, t);
    assert UpdateFile(c, s, 0, e.memory[0]) == t by {
      assert FirstIdle(c, s, 0, 0) == 0;
      assert seq(4096, e.memory[0].value) == seq(4096, _ => 0 as byte);
    }
    assert UpdateFiles(c, s, e.memory, 1) == t;
    assert AcceptJobs(c, t, 0, []) == t;
    assert (set i | 0 <= i < 1 :: t.batch[i]) == {0} by { assert t.batch[0] == 0; }
    var u := SubmitBatch(c, t, 1);
    assert u.batch == [] && u.kernel == {0};
  }

  lemma ReportFails(c: Config)
    requires c.nFile == c.nPer == 1
    ensures Step(c, Reading(), Report(0, -EIO, []),
                 Failed())
  {
    var s := Reading();
    OneIsShape(c, s);
    assert IsSlot(c, s, 0);
    assert BufferAfter(s.files[0], s.blocks[0], false, []) == seq(4096, _ => 0);
    var t := Complete(c, s, 0, -EIO, []);
    assert {} + {0} == {0} && t.kernel == {} && !BringsOther(c, s.files[0], s.blocks[0], -EIO, []);
    assert t.files[0].unread == {0} && t.files[0].spoiled == {0} && t.files[0].faulty == {};
    assert t.files[0] == OneFile(1, 0, {}, {0});
    assert t.files == [OneFile(1, 0, {}, {0})];
    assert t.blocks == [OneBlock(EIO)];
  }

  lemma TurnDelivers(c: Config, e: Choices)
    requires c.nFile == c.nPer == 1 && Fair(c, e) && e.jobs == []
    ensures Step(c, Failed(), Turn(e),
                 Gone())
  {
    var s := Failed();
    OneIsShape(c, s);
    var t := State([OneFile(0, 1, {0}, {0})], [Idle(None)], [], {}, [], 1, 0);
    OneIsShape(c, t);
    var r := UpdateSlot(c, s, 0);
    assert {} + {0} == {0};
    assert r.files == t.files && r.blocks == t.blocks;
    assert UpdateBlocks(c, s, 1) == t;
    var u := Gone();
    OneIsShape(c, u);
    assert UpdateFile(c, t, 0, e.memory[0]) == u by {
      var v := t.(handed := [OneFile(0, 1, {0}, {0})]);
      assert t.handed + [t.files[0]] == v.handed;
      assert ClearSlots(c, v, 0, 1) == v;
      assert v.files[0 := NoFile()] == u.files;
    }
    assert UpdateFiles(c, t, e.memory, 1) == u;
    assert AcceptJobs(c, u, 0, []) == u;
  }

  /** A read that fails ends in a file that is handed over without an error and is not a copy. */
  lemma SilentFailure(hash: seq<byte> -> int) returns (c: Config, ss: seq<State>, evs: seq<Event>)
    ensures IsRun(c, ss, evs) && c.hash == hash
    ensures var handed := ss[|evs|].handed;
            |handed| == 1 && Aligned(handed[0]) && handed[0].nErrors == 0 &&
              Truncated(handed[0].dst, |handed[0].src|) != handed[0].src
  {
    c := OneSlot(hash);
    var e1, e2, e3 := Choices([None], [Job([1], 4096)], n => n), Choices([Some(_ => 0)], [], n => n),
        Choices([None], [], n => n);
    TurnAccepts(c, e1);
    TurnReads(c, e2);
    ReportFails(c);
    TurnDelivers(c, e3);
    NotACopy();
    hide Step, Truncated, Aligned, Empty, Accepted, Reading, Failed, Gone, OneFile;
    evs := [Turn(e1), Turn(e2), Report(0, -EIO, []), Turn(e3)];
    ss := [Empty(c), Accepted(), Reading(), Failed(), Gone()];
  }

  lemma NotACopy()
    ensures |Gone().handed| == 1
    ensures var f := Gone().handed[0]; Aligned(f) && f.nErrors == 0 && Truncated(f.dst, |f.src|) != f.src
  {
    var f := OneFile(0, 1, {0}, {0});
    assert Truncated(f.dst, |f.src|)[0] == 0;
  }
}
