/**
  Why every file is handed over in the end: a measure of the work that is left, which no routine
  raises and which falls with every report of the kernel and with every turn that waits for none.
 */
module SchedulerProgress {
  import opened Basics
  import opened FileJobs
  import opened SchedulerSpec
  import opened SchedulerInv
  import opened SchedulerSteps
  import opened SchedulerPasses
  import opened SchedulerRuns
  import opened Scheduler

  // ---- the work that is left ----

  /** What is left of a block; a request in the batch counts for more than one with the kernel. */
  function SlotRest(b: Block, inKernel: bool): nat
  {
    if !b.inUse then 0
    else
      (match b.kind case READ => 8 case WRITE => 5 case READDST => 2 case FINISH => 1)
      + (if b.status != EINPROGRESS then 0 else if inKernel then 1 else 2)
  }

  const BLOCK_WORK := 11

  /** What is left of a file apart from the blocks in its slots: those not yet issued, and handing it over. */
  function FileRest(f: FileJob): nat
  {
    if !f.active then 0 else 1 + BLOCK_WORK * (if Issued(f) < Count(f) then Count(f) - Issued(f) else 0)
  }

  function SlotWork(s: State, n: nat): nat
    requires n <= |s.blocks|
  {
    if n == 0 then 0 else SlotWork(s, n - 1) + SlotRest(s.blocks[n - 1], n - 1 in s.kernel)
  }

  function FileWork(s: State, n: nat): nat
    requires n <= |s.files|
  {
    if n == 0 then 0 else FileWork(s, n - 1) + FileRest(s.files[n - 1])
  }

  function Work(s: State): nat { SlotWork(s, |s.blocks|) + FileWork(s, |s.files|) }

  /** Only slot `k` differs. */
  ghost predicate OnlySlot(s: State, s': State, k: int)
  {
    && 0 <= k < |s.blocks| == |s'.blocks|
    && forall j :: 0 <= j < |s.blocks| && j != k ==> s'.blocks[j] == s.blocks[j] && (j in s'.kernel <==> j in s.kernel)
  }

  ghost predicate OnlyFile(s: State, s': State, i: int)
  {
    && 0 <= i < |s.files| == |s'.files|
    && forall j :: 0 <= j < |s.files| && j != i ==> s'.files[j] == s.files[j]
  }

  lemma {:induction false} SlotWorkChanged(s: State, s': State, k: int, n: nat)
    requires OnlySlot(s, s', k) && n <= |s.blocks|
    ensures SlotWork(s', n) ==
            SlotWork(s, n) + if k < n then SlotRest(s'.blocks[k], k in s'.kernel) - SlotRest(s.blocks[k],
                k in s.kernel) else 0
  {
    hide SlotRest;
    if n > 0 { SlotWorkChanged(s, s', k, n - 1); }
  }

  lemma {:induction false} FileWorkChanged(s: State, s': State, i: int, n: nat)
    requires OnlyFile(s, s', i) && n <= |s.files|
    ensures FileWork(s', n) == FileWork(s, n) + if i < n then FileRest(s'.files[i]) - FileRest(s.files[i]) else 0
  {
    hide FileRest;
    if n > 0 { FileWorkChanged(s, s', i, n - 1); }
  }

  /** A change of one slot and its file. */
  lemma WorkChanged(c: Config, s: State, s': State, k: int)
    requires IsSlot(c, s, k) && OnlySlot(s, s', k) && OnlyFile(s, s', Parent(c, k))
    ensures var i := Parent(c, k);
            Work(s') == Work(s) + SlotRest(s'.blocks[k], k in s'.kernel) - SlotRest(s.blocks[k], k in s.kernel)
                        + FileRest(s'.files[i]) - FileRest(s.files[i])
  {
    hide SlotRest, FileRest;
    SlotWorkChanged(s, s', k, |s.blocks|);
    FileWorkChanged(s, s', Parent(c, k), |s.files|);
  }

  // ---- the routines ----

  lemma IssuedBelow(f: FileJob)
    requires f.blockSize > 0 && Issued(f) >= 0
    ensures f.blockSize * Issued(f) < |f.src| <==> Issued(f) < Count(f)
  {
    hide Count, Lo;
    StartsInside(f, Issued(f));
    assert Lo(f, Issued(f)) == f.blockSize * Issued(f);
  }

  /** Starting a block moves one unit of work on; giving up the slot costs nothing. */
  lemma ScheduleWork(c: Config, s: State, k: int, preallocated: bool, memory: Memory)
    requires IsSlot(c, s, k) && !s.blocks[k].inUse && k !in s.kernel
    requires var f := FileOf(c, s, k); f.active && f.blockSize > 0 && Issued(f) >= 0
    ensures var f, s' := FileOf(c, s, k), ScheduleBlock(c, s, k, preallocated, memory);
            && Work(s') == Work(s) - (if Issued(f) < Count(f) && (preallocated || memory.Some?) then 1 else 0)
            && OnlySlot(s, s', k) && OnlyFile(s, s', Parent(c, k)) && |s'.batch| >= |s.batch|
  {
    hide Count, Work;
    var f, s' := FileOf(c, s, k), ScheduleBlock(c, s, k, preallocated, memory);
    IssuedBelow(f);
    ScheduleShape(c, s, k, preallocated, memory);
    WorkChanged(c, s, s', k);
    SameCount(f, s'.files[Parent(c, k)]);
  }

  lemma ScheduleShape(c: Config, s: State, k: int, preallocated: bool, memory: Memory)
    requires IsSlot(c, s, k) && !s.blocks[k].inUse
    ensures var f, s' := FileOf(c, s, k), ScheduleBlock(c, s, k, preallocated, memory);
            && OnlySlot(s, s', k) && OnlyFile(s, s', Parent(c, k)) && s'.kernel == s.kernel
            && (if f.blockSize * Issued(f) >= |f.src| || (!preallocated && memory.None?) then
                  s'.files[Parent(c, k)] == f && !s'.blocks[k].inUse && s'.batch == s.batch
                else
                  && s'.files[Parent(c, k)] == f.(nScheduled := f.nScheduled + 1) && s'.batch == s.batch + [k]
                  && s'.blocks[k].inUse && s'.blocks[k].kind == READ && s'.blocks[k].status == EINPROGRESS)
  {
  }

  /** Looking at a block that is not with the kernel takes it on by at least one unit. */
  lemma UpdateBlockWork(c: Config, s: State, k: int)
    requires Inv(c, s, -1) && IsSlot(c, s, k) && s.blocks[k].inUse
    ensures var s' := UpdateBlock(c, s, k);
            && OnlySlot(s, s', k) && OnlyFile(s, s', Parent(c, k)) && s'.kernel == s.kernel
            && Work(s') <= Work(s) && (s.blocks[k].status != EINPROGRESS ==> Work(s') < Work(s))
            && |s'.batch| >= |s.batch|
  {
    hide Inv, Work, ScheduleBlock, Count, Bytes, IsZero;
    InvAt(c, s, k, -1);
    var f, b := FileOf(c, s, k), s.blocks[k];
    if b.status == EINPROGRESS {
      return;
    }
    NotInKernel(c, s, k);
    if b.status == 0 && b.kind in {READ, WRITE} {
      WorkChanged(c, s, UpdateBlock(c, s, k), k);
    } else if b.status == 0 {
      ReleaseWork(c, s, k, Mismatch(c, b));
      var t := Release(c, s, k, Mismatch(c, b));
      ScheduleWork(c, t, k, true, None);
      ScheduleShape(c, t, k, true, None);
    } else {
      GivenUpWork(c, s, k);
    }
  }

  lemma NotInKernel(c: Config, s: State, k: int)
    requires Inv(c, s, -1) && 0 <= k < |s.blocks| && !Outstanding(s, k)
    ensures k !in s.kernel && k !in s.batch
  {
  }

  lemma ReleaseWork(c: Config, s: State, k: int, errors: int)
    requires IsSlot(c, s, k) && s.blocks[k].inUse && k !in s.kernel
    requires FileOk(FileOf(c, s, k)) && SlotOk(c, FileOf(c, s, k), s.blocks[k])
    ensures var t := Release(c, s, k, errors);
            && IsSlot(c, t, k) && !t.blocks[k].inUse && t.kernel == s.kernel && t.batch == s.batch
            && OnlySlot(s, t, k) && OnlyFile(s, t, Parent(c, k)) && Work(t) < Work(s)
            && FileOf(c, t, k).active && FileOf(c, t, k).blockSize > 0 && Issued(FileOf(c, t, k)) >= 0
  {
    hide Work, Count, FileBytes, SlotBytes, SlotFaults;
    var t := Release(c, s, k, errors);
    SameCount(FileOf(c, s, k), t.files[Parent(c, k)]);
    WorkChanged(c, s, t, k);
  }

  lemma GivenUpWork(c: Config, s: State, k: int)
    requires IsSlot(c, s, k) && s.blocks[k].inUse && k !in s.kernel
    requires s.blocks[k].status != 0 && s.blocks[k].status != EINPROGRESS
    ensures var s' := UpdateBlock(c, s, k);
            && OnlySlot(s, s', k) && OnlyFile(s, s', Parent(c, k)) && s'.kernel == s.kernel && s'.batch == s.batch
            && Work(s') < Work(s)
  {
    hide Work, Count;
    var s' := UpdateBlock(c, s, k);
    SameCount(FileOf(c, s, k), s'.files[Parent(c, k)]);
    WorkChanged(c, s, s', k);
  }

  // ---- the passes of a turn ----

  lemma UpdateSlotWork(c: Config, s: State, k: int)
    requires Inv(c, s, -1) && IsSlot(c, s, k)
    ensures var s' := UpdateSlot(c, s, k);
            && OnlySlot(s, s', k) && s'.kernel == s.kernel && |s'.batch| >= |s.batch| && Work(s') <= Work(s)
            && (s.blocks[k].inUse && s.blocks[k].status != EINPROGRESS ==> Work(s') < Work(s))
            && ((s.blocks[k].inUse ==> s.blocks[k].status == EINPROGRESS) ==> s' == s)
  {
    hide Inv, Work, UpdateBlock;
    InvAt(c, s, k, -1);
    if s.blocks[k].inUse {
      UsedIsActive(FileOf(c, s, k), s.blocks[k]);
      UpdateBlockWork(c, s, k);
      if s.blocks[k].status == EINPROGRESS { InProgressStays(c, s, k); }
    }
  }

  lemma InProgressStays(c: Config, s: State, k: int)
    requires IsSlot(c, s, k) && s.blocks[k].status == EINPROGRESS
    ensures UpdateBlock(c, s, k) == s
  {
  }

  lemma UsedIsActive(f: FileJob, b: Block)
    requires SlotCounts(f, b) && b.inUse
    ensures f.active
  {
  }

  /** The first pass takes no work back, leaves later slots alone, and moves every block on that is not waiting. */
  lemma {:induction false} UpdateBlocksWork(c: Config, s: State, n: nat)
    requires Inv(c, s, -1) && n <= |s.blocks|
    ensures var t := UpdateBlocks(c, s, n);
            && |t.blocks| == |s.blocks| && t.kernel == s.kernel && |t.batch| >= |s.batch| && Work(t) <= Work(s)
            && (forall j :: n <= j < |s.blocks| ==> t.blocks[j] == s.blocks[j])
            && ((forall j :: 0 <= j < n && s.blocks[j].inUse ==> s.blocks[j].status == EINPROGRESS) ==> t == s)
            && ((exists j :: 0 <= j < n && s.blocks[j].inUse && s.blocks[j].status != EINPROGRESS) ==>
                  Work(t) < Work(s))
  {
    hide Inv, Work, UpdateSlot, Shape, Pending;
    InvPending(c, s);
    if n > 0 {
      UpdateBlocksWork(c, s, n - 1);
      UpdateBlocksKeeps(c, s, n - 1);
      var t := UpdateBlocks(c, s, n - 1);
      SameSizes(c, s, t);
      UpdateSlotWork(c, t, n - 1);
    }
  }

  /** Handing a file over finishes its work. */
  lemma HandWork(c: Config, s: State, i: int)
    requires Inv(c, s, -1) && 0 <= i < |s.files| && s.files[i].active && s.files[i].nFinished >= Count(s.files[i])
    ensures var t := ClearFile(c, s.(handed := s.handed + [s.files[i]]), i);
            && t.blocks == s.blocks && t.kernel == s.kernel && t.batch == s.batch && OnlyFile(s, t, i)
            && Work(t) < Work(s)
  {
    HandKeeps(c, s, i);
    var u := s.(handed := s.handed + [s.files[i]]);
    NothingToClear(c, u, i, |u.blocks|);
    var t := ClearFile(c, u, i);
    hide Inv, Count, FileRest, Unused;
    FileWorkChanged(s, t, i, |s.files|);
    SameSlotWork(s, t, |s.blocks|);
    RestPositive(s.files[i]);
  }

  lemma RestPositive(f: FileJob)
    ensures f.active ==> FileRest(f) > 0
    ensures FileRest(NoFile()) == 0
  {
  }

  lemma {:induction false} SameSlotWork(s: State, t: State, n: nat)
    requires t.blocks == s.blocks && t.kernel == s.kernel && n <= |s.blocks|
    ensures SlotWork(t, n) == SlotWork(s, n)
  {
    if n > 0 { SameSlotWork(s, t, n - 1); }
  }

  /** A look at a file takes no work back, and does some if no block of it is in a slot. */
  lemma UpdateFileWork(c: Config, s: State, i: int, memory: Memory)
    requires Inv(c, s, -1) && 0 <= i < c.nFile == |s.files|
    ensures var t := UpdateFile(c, s, i, memory);
            && |t.blocks| == |s.blocks| && OnlyFile(s, t, i) && t.kernel == s.kernel && |t.batch| >= |s.batch|
            && (forall j :: 0 <= j < |s.blocks| && Parent(c, j) != i ==> t.blocks[j] == s.blocks[j])
            && Work(t) <= Work(s)
            && (s.files[i].active && Unused(c, s, i) && memory.Some? && c.nPer >= 1 ==> Work(t) < Work(s))
  {
    hide Inv, Work, ClearFile, ScheduleBlock, FirstIdle, Shape, Pending, Count, Unused, FileOk;
    InvPending(c, s);
    var f := s.files[i];
    if !f.active {
      return;
    }
    FileCountsOf(c, s, i);
    if f.nFinished >= Count(f) {
      HandWork(c, s, i);
    } else {
      var k := FirstIdle(c, s, i, 0);
      if Unused(c, s, i) && c.nPer >= 1 { HasIdle(c, s, i); }
      if Issued(f) < Count(f) && k < |s.blocks| {
        IdleSlotOf(c, s, i, k);
        ScheduleWork(c, s, k, false, memory);
        ScheduleShape(c, s, k, false, memory);
      }
    }
  }

  lemma FileCountsOf(c: Config, s: State, i: int)
    requires Inv(c, s, -1) && 0 <= i < |s.files|
    ensures FileCounts(s.files[i]) && Issued(s.files[i]) >= 0
    ensures Unused(c, s, i) ==> s.files[i].nScheduled == 0
  {
    hide FileBytes, SlotOk, Pending, Tickets, Distinct, Held, Delivered;
    assert FileOk(s.files[i]);
    if Unused(c, s, i) { assert InUse(c, s, i) == {}; }
  }

  lemma HasIdle(c: Config, s: State, i: nat)
    requires Shape(c, s) && i < c.nFile && Unused(c, s, i) && c.nPer >= 1
    ensures FirstIdle(c, s, i, 0) < |s.blocks|
  {
    hide FirstIdle;
    SlotIndex(c, i, 0);
    var k := i * c.nPer;
    assert Parent(c, k) == i && 0 <= k < |s.blocks|;
  }

  lemma IdleSlotOf(c: Config, s: State, i: int, k: int)
    requires Inv(c, s, -1) && 0 <= i < |s.files| && k == FirstIdle(c, s, i, 0) && k < |s.blocks|
    requires s.files[i].active && Issued(s.files[i]) < Count(s.files[i])
    ensures IsSlot(c, s, k) && Parent(c, k) == i && !s.blocks[k].inUse && k !in s.kernel && s.files[i].blockSize > 0
  {
    assert !Outstanding(s, k);
    NotInKernel(c, s, k);
  }

  /** The second pass. */
  lemma {:induction false} UpdateFilesWork(c: Config, s: State, memory: seq<Memory>, n: nat)
    requires Inv(c, s, -1) && |memory| == c.nFile && n <= c.nFile == |s.files|
    ensures var t := UpdateFiles(c, s, memory, n);
            && |t.blocks| == |s.blocks| && |t.files| == |s.files| && t.kernel == s.kernel && |t.batch| >= |s.batch|
            && (forall j :: n <= j < |s.files| ==> t.files[j] == s.files[j])
            && (forall j :: 0 <= j < |s.blocks| && Parent(c, j) >= n ==> t.blocks[j] == s.blocks[j])
            && Work(t) <= Work(s)
  {
    hide Inv, Work, UpdateFile, Shape, Pending;
    InvPending(c, s);
    if n > 0 {
      UpdateFilesWork(c, s, memory, n - 1);
      UpdateFilesKeeps(c, s, memory, n - 1);
      var t := UpdateFiles(c, s, memory, n - 1);
      SameSizes(c, s, t);
      UpdateFileWork(c, t, n - 1, memory[n - 1]);
    }
  }

  /** It does some work if a file has no block in a slot. */
  lemma {:induction false} UpdateFilesMove(c: Config, s: State, memory: seq<Memory>, n: nat, i: nat)
    requires Inv(c, s, -1) && |memory| == c.nFile && i < n <= c.nFile == |s.files| && c.nPer >= 1
    requires s.files[i].active && Unused(c, s, i) && memory[i].Some?
    ensures Work(UpdateFiles(c, s, memory, n)) < Work(s)
  {
    hide Inv, Work, UpdateFile, Shape, Pending;
    InvPending(c, s);
    UpdateFilesWork(c, s, memory, n - 1);
    UpdateFilesKeeps(c, s, memory, n - 1);
    var t := UpdateFiles(c, s, memory, n - 1);
    SameSizes(c, s, t);
    UpdateFileWork(c, t, n - 1, memory[n - 1]);
    if i < n - 1 {
      UpdateFilesMove(c, s, memory, n - 1, i);
    } else {
      assert Unused(c, t, i);
    }
  }

  // ---- submission and reports ----

  lemma FailFirstWork(c: Config, s: State)
    requires Inv(c, s, -1) && BatchInRange(s) && s.batch != []
    ensures Work(FailFirst(c, s)) < Work(s)
  {
    var k, t := s.batch[0], FailFirst(c, s);
    assert k in s.batch && Outstanding(s, k) && k !in s.kernel;
    FailFirstShape(c, s);
    hide Inv, Work, Count, FailFirst;
    SameCount(FileOf(c, s, k), t.files[Parent(c, k)]);
    WorkChanged(c, s, t, k);
  }

  lemma FailFirstShape(c: Config, s: State)
    requires Shape(c, s) && BatchInRange(s) && s.batch != []
    ensures var k, t := s.batch[0], FailFirst(c, s);
            var f, g := FileOf(c, s, k), FileOf(c, t, k);
            && OnlySlot(s, t, k) && OnlyFile(s, t, Parent(c, k)) && !t.blocks[k].inUse && t.kernel == s.kernel
            && g.active == f.active && g.src == f.src && g.blockSize == f.blockSize && Issued(g) == Issued(f)
  {
  }

  lemma {:induction false} FailBatchWork(c: Config, s: State)
    requires Inv(c, s, -1) && BatchInRange(s)
    ensures Work(FailBatch(c, s)) <= Work(s) && (s.batch != [] ==> Work(FailBatch(c, s)) < Work(s))
    decreases |s.batch|
  {
    assert Shape(c, s);
    hide Inv, FailFirst, Work;
    if s.batch != [] {
      FailFirstWork(c, s);
      FailFirstKeeps(c, s);
      FailFirstRange(c, s);
      FailBatchWork(c, FailFirst(c, s));
    }
  }

  lemma {:induction false} TakenWork(s: State, t: State, n: nat)
    requires t.blocks == s.blocks && s.kernel <= t.kernel && n <= |s.blocks|
    ensures SlotWork(t, n) <= SlotWork(s, n)
    ensures (exists j :: 0 <= j < n && Outstanding(s, j) && j !in s.kernel && j in t.kernel) ==>
            SlotWork(t, n) < SlotWork(s, n)
  {
    if n > 0 { TakenWork(s, t, n - 1); }
  }

  lemma {:induction false} SameFileWork(s: State, t: State, n: nat)
    requires t.files == s.files && n <= |s.files|
    ensures FileWork(t, n) == FileWork(s, n)
  {
    if n > 0 { SameFileWork(s, t, n - 1); }
  }

  /** Submitting takes no work back, and does some unless nothing was in the batch or nothing was taken. */
  lemma SubmitWork(c: Config, s: State, submitted: int)
    requires Inv(c, s, -1) && BatchInRange(s) && submitted <= |s.batch|
    ensures var t := SubmitBatch(c, s, submitted);
            Work(t) <= Work(s) && (s.batch != [] && submitted != 0 ==> Work(t) < Work(s))
  {
    if s.batch == [] {
    } else if submitted < 0 {
      FailBatchWork(c, s);
    } else {
      var t := SubmitBatch(c, s, submitted);
      if submitted > 0 {
        assert s.batch[0] in s.batch && Outstanding(s, s.batch[0]) && s.batch[0] !in s.kernel && s.batch[0] in t.kernel;
      }
      hide Inv;
      TakenWork(s, t, |s.blocks|);
      SameFileWork(s, t, |s.files|);
    }
  }

  /** A report takes its block on, unless it says that the request is still in progress. */
  lemma CompleteWork(c: Config, s: State, k: int, res: int, other: seq<byte>)
    requires Inv(c, s, -1) && k in s.kernel && IsSlot(c, s, k)
    ensures var t := Complete(c, s, k, res, other);
            Work(t) == if res != -EINPROGRESS then Work(s) - 1 else Work(s) + 1
  {
    assert Outstanding(s, k);
    InvAt(c, s, k, -1);
    var t := Complete(c, s, k, res, other);
    ReportShape(c, s, k, res, other);
    hide Inv, Work, Count, Complete;
    SameCount(FileOf(c, s, k), t.files[Parent(c, k)]);
    WorkChanged(c, s, t, k);
  }

  lemma ReportShape(c: Config, s: State, k: int, res: int, other: seq<byte>)
    requires IsSlot(c, s, k) && s.blocks[k].cbBytes > 0
    ensures var t := Complete(c, s, k, res, other);
            var f, g := FileOf(c, s, k), FileOf(c, t, k);
            && OnlySlot(s, t, k) && OnlyFile(s, t, Parent(c, k)) && t.kernel == s.kernel - {k}
            && g.active == f.active && g.src == f.src && g.blockSize == f.blockSize && Issued(g) == Issued(f)
            && t.blocks[k].inUse == s.blocks[k].inUse && t.blocks[k].kind == s.blocks[k].kind
            && (t.blocks[k].status == EINPROGRESS <==> res == -EINPROGRESS)
  {
    hide BufferAfter, DestinationAfter, BringsOther;
  }

  // ---- no request is forgotten ----

  /** Every request that is in progress waits in the batch or is with the kernel. */
  ghost predicate NoneForgotten(s: State)
  {
    forall k :: 0 <= k < |s.blocks| && Outstanding(s, k) ==> k in s.batch || k in s.kernel
  }

  /** Only slot `k` changes, and if it waits afterwards it does so in the batch. */
  ghost predicate Remembers(s: State, t: State, k: int)
  {
    && OnlySlot(s, t, k) && t.kernel == s.kernel && (forall j :: j in s.batch ==> j in t.batch)
    && (Outstanding(t, k) ==> k in t.batch || t == s)
  }

  lemma RememberedAll(s: State, t: State, k: int)
    requires NoneForgotten(s) && Remembers(s, t, k)
    ensures NoneForgotten(t)
  {
    forall j | 0 <= j < |t.blocks| && Outstanding(t, j) ensures j in t.batch || j in t.kernel {
      if j != k { assert Outstanding(s, j); }
    }
  }

  lemma ScheduleRemembers(c: Config, s: State, k: int, preallocated: bool, memory: Memory)
    requires IsSlot(c, s, k) && !s.blocks[k].inUse
    ensures Remembers(s, ScheduleBlock(c, s, k, preallocated, memory), k)
  {
    ScheduleShape(c, s, k, preallocated, memory);
    hide ScheduleBlock;
  }

  lemma UpdateRemembers(c: Config, s: State, k: int)
    requires IsSlot(c, s, k)
    ensures Remembers(s, UpdateSlot(c, s, k), k)
  {
    hide ScheduleBlock, Bytes, IsZero;
    var b := s.blocks[k];
    if FileOf(c, s, k).active && b.inUse && b.status == 0 && b.kind !in {READ, WRITE} {
      var t := Release(c, s, k, Mismatch(c, b));
      ScheduleRemembers(c, t, k, true, None);
      NowInBatch(c, t, k);
    }
  }

  lemma NowInBatch(c: Config, t: State, k: int)
    requires IsSlot(c, t, k) && !t.blocks[k].inUse
    ensures var u := ScheduleBlock(c, t, k, true, None); Outstanding(u, k) ==> k in u.batch
  {
    ScheduleShape(c, t, k, true, None);
    hide ScheduleBlock;
  }

  lemma {:induction false} UpdateBlocksRemember(c: Config, s: State, n: nat)
    requires Shape(c, s) && n <= |s.blocks| && NoneForgotten(s)
    ensures NoneForgotten(UpdateBlocks(c, s, n)) && |UpdateBlocks(c, s, n).blocks| == |s.blocks|
  {
    hide Shape, UpdateSlot, NoneForgotten;
    if n > 0 {
      UpdateBlocksRemember(c, s, n - 1);
      var t := UpdateBlocks(c, s, n - 1);
      ThereAt(c, t, n - 1);
      UpdateRemembers(c, t, n - 1);
      RememberedAll(t, UpdateSlot(c, t, n - 1), n - 1);
    }
  }

  lemma ThereAt(c: Config, s: State, k: int)
    requires Shape(c, s) && 0 <= k < |s.blocks|
    ensures IsSlot(c, s, k)
  {
  }

  lemma SameRemembers(s: State, t: State)
    requires NoneForgotten(s) && t.blocks == s.blocks && t.kernel == s.kernel && t.batch == s.batch
    ensures NoneForgotten(t)
  {
    forall k | 0 <= k < |t.blocks| && Outstanding(t, k)
      ensures k in t.batch || k in t.kernel
    {
      assert Outstanding(s, k);
    }
  }

  lemma UpdateFileRemembers(c: Config, s: State, i: int, memory: Memory)
    requires Inv(c, s, -1) && 0 <= i < |s.files| && NoneForgotten(s)
    ensures NoneForgotten(UpdateFile(c, s, i, memory))
  {
    InvPending(c, s);
    hide Inv, ScheduleBlock, FirstIdle, Count, ClearFile, Shape, Pending, NoneForgotten;
    var f := s.files[i];
    if f.active && f.nFinished >= Count(f) {
      HandRemembers(c, s, i);
    } else if f.active && Issued(f) < Count(f) && FirstIdle(c, s, i, 0) < |s.blocks| {
      StartRemembers(c, s, i, memory);
    }
  }

  lemma HandRemembers(c: Config, s: State, i: int)
    requires Inv(c, s, -1) && 0 <= i < |s.files| && s.files[i].active && s.files[i].nFinished >= Count(s.files[i])
    requires NoneForgotten(s)
    ensures NoneForgotten(ClearFile(c, s.(handed := s.handed + [s.files[i]]), i))
  {
    HandWork(c, s, i);
    hide Inv, ClearFile, NoneForgotten, Work;
    SameRemembers(s, ClearFile(c, s.(handed := s.handed + [s.files[i]]), i));
  }

  lemma StartRemembers(c: Config, s: State, i: int, memory: Memory)
    requires Inv(c, s, -1) && 0 <= i < |s.files| && NoneForgotten(s) && s.files[i].active
    requires Issued(s.files[i]) < Count(s.files[i]) && FirstIdle(c, s, i, 0) < |s.blocks|
    ensures NoneForgotten(ScheduleBlock(c, s, FirstIdle(c, s, i, 0), false, memory))
  {
    var k := FirstIdle(c, s, i, 0);
    IdleSlotOf(c, s, i, k);
    hide Inv, ScheduleBlock, FirstIdle, NoneForgotten;
    ScheduleRemembers(c, s, k, false, memory);
    RememberedAll(s, ScheduleBlock(c, s, k, false, memory), k);
  }

  lemma {:induction false} UpdateFilesRemember(c: Config, s: State, memory: seq<Memory>, n: nat)
    requires Inv(c, s, -1) && |memory| == c.nFile && n <= c.nFile && NoneForgotten(s)
    ensures NoneForgotten(UpdateFiles(c, s, memory, n))
  {
    hide Inv, UpdateFile, NoneForgotten, Shape, Pending;
    InvPending(c, s);
    if n > 0 {
      UpdateFilesRemember(c, s, memory, n - 1);
      UpdateFilesKeeps(c, s, memory, n - 1);
      SameSizes(c, s, UpdateFiles(c, s, memory, n - 1));
      UpdateFileRemembers(c, UpdateFiles(c, s, memory, n - 1), n - 1, memory[n - 1]);
    }
  }

  lemma {:induction false} AcceptJobsRemember(c: Config, s: State, i: nat, jobs: seq<Job>)
    requires Shape(c, s) && i <= c.nFile && NoneForgotten(s)
    ensures NoneForgotten(AcceptJobs(c, s, i, jobs))
    decreases c.nFile - i
  {
    if i < c.nFile {
      if s.files[i].active {
        AcceptJobsRemember(c, s, i + 1, jobs);
      } else if jobs != [] {
        var t := Accept(c, s, i, jobs[0]);
        assert forall k :: Outstanding(t, k) == Outstanding(s, k);
        AcceptJobsRemember(c, t, i + 1, jobs[1..]);
      }
    }
  }

  lemma FailFirstRemembers(c: Config, s: State)
    requires Shape(c, s) && BatchInRange(s) && s.batch != [] && NoneForgotten(s)
    ensures NoneForgotten(FailFirst(c, s))
  {
    var k, t := s.batch[0], FailFirst(c, s);
    FailFirstShape(c, s);
    hide FailFirst;
    forall j | 0 <= j < |t.blocks| && Outstanding(t, j) ensures j in t.batch || j in t.kernel {
      assert j != k && Outstanding(s, j);
      assert j in s.batch ==> j in s.batch[1..];
    }
  }

  lemma {:induction false} FailBatchRemembers(c: Config, s: State)
    requires Shape(c, s) && BatchInRange(s) && NoneForgotten(s)
    ensures NoneForgotten(FailBatch(c, s))
    decreases |s.batch|
  {
    hide FailFirst, NoneForgotten, Shape;
    if s.batch != [] {
      FailFirstRemembers(c, s);
      FailFirstRange(c, s);
      FailBatchRemembers(c, FailFirst(c, s));
    }
  }

  lemma SubmitRemembers(c: Config, s: State, submitted: int)
    requires Shape(c, s) && BatchInRange(s) && submitted <= |s.batch| && NoneForgotten(s)
    ensures NoneForgotten(SubmitBatch(c, s, submitted))
  {
    if s.batch != [] && submitted < 0 {
      FailBatchRemembers(c, s);
    } else if s.batch != [] {
      var t := SubmitBatch(c, s, submitted);
      forall k | 0 <= k < |t.blocks| && Outstanding(t, k) ensures k in t.batch || k in t.kernel {
        assert Outstanding(s, k);
        if k in s.batch {
          var i :| 0 <= i < |s.batch| && s.batch[i] == k;
          if i >= submitted { assert t.batch[i - submitted] == k; }
        }
      }
    }
  }

  /** A request is forgotten exactly if it is reported to be still in progress. */
  lemma ReportRemembersIff(c: Config, s: State, k: int, res: int, other: seq<byte>)
    requires Inv(c, s, -1) && k in s.kernel && IsSlot(c, s, k) && NoneForgotten(s)
    ensures NoneForgotten(Complete(c, s, k, res, other)) <==> res != -EINPROGRESS
  {
    assert Outstanding(s, k) && k !in s.batch;
    InvAt(c, s, k, -1);
    var t := Complete(c, s, k, res, other);
    ReportShape(c, s, k, res, other);
    ReportBatch(c, s, k, res, other);
    hide Inv, Complete;
    if res != -EINPROGRESS {
      forall j | 0 <= j < |t.blocks| && Outstanding(t, j) ensures j in t.batch || j in t.kernel {
        assert j != k && Outstanding(s, j);
      }
    } else {
      assert Outstanding(t, k);
    }
  }

  lemma ReportBatch(c: Config, s: State, k: int, res: int, other: seq<byte>)
    requires IsSlot(c, s, k)
    ensures Complete(c, s, k, res, other).batch == s.batch
  {
  }

  // ---- whole runs ----

  /** The environment grants memory, takes requests or refuses them, and brings no new jobs. */
  ghost predicate Willing(c: Config, e: Choices)
  {
    && Fair(c, e) && e.jobs == []
    && (forall i :: 0 <= i < |e.memory| ==> e.memory[i].Some?)
    && forall n :: n > 0 ==> e.submit(n) != 0
  }

  /** Some block in a slot has a result to look at. */
  ghost predicate HasResult(s: State)
  {
    exists k :: 0 <= k < |s.blocks| && s.blocks[k].inUse && s.blocks[k].status != EINPROGRESS
  }

  /** A turn takes no work back, and does some if it waits for no report. */
  lemma PassesWork(c: Config, s: State, e: Choices)
    requires Inv(c, s, -1) && NoneForgotten(s) && Willing(c, e) && c.nPer >= 1
    ensures var p := Passes(c, s, e);
            && Work(p) <= Work(s) && NoneForgotten(p) && |p.batch| >= |s.batch|
            && (s.kernel == {} && !NoneActive(s) ==> Work(p) < Work(s) || p.batch != [])
  {
    hide Inv, Work, UpdateBlocks, UpdateFiles, Shape, Pending, Unused, NoneForgotten;
    InvPending(c, s);
    SameSizes(c, s, s);
    UpdateBlocksWork(c, s, |s.blocks|);
    UpdateBlocksKeeps(c, s, |s.blocks|);
    UpdateBlocksRemember(c, s, |s.blocks|);
    var t := UpdateBlocks(c, s, |s.blocks|);
    InvPending(c, t);
    SameSizes(c, s, t);
    UpdateFilesWork(c, t, e.memory, c.nFile);
    UpdateFilesRemember(c, t, e.memory, c.nFile);
    var u := UpdateFiles(c, t, e.memory, c.nFile);
    NoJobs(c, u, 0);
    if s.kernel == {} && !NoneActive(s) && !HasResult(s) {
      assert t == s;
      if s.batch == [] {
        NothingInUse(c, s);
        var i :| 0 <= i < |s.files| && s.files[i].active;
        UpdateFilesMove(c, s, e.memory, c.nFile, i);
      }
    }
  }

  lemma {:induction false} NoJobs(c: Config, s: State, i: nat)
    requires Shape(c, s) && i <= c.nFile
    ensures AcceptJobs(c, s, i, []) == s
    decreases c.nFile - i
  {
    if i < c.nFile && s.files[i].active { NoJobs(c, s, i + 1); }
  }

  lemma NothingInUse(c: Config, s: State)
    requires NoneForgotten(s) && !HasResult(s) && s.batch == [] && s.kernel == {}
    ensures forall i :: Unused(c, s, i)
  {
    forall k | 0 <= k < |s.blocks| ensures !s.blocks[k].inUse { assert s.blocks[k].inUse ==> Outstanding(s, k); }
  }

  lemma TurnWork(c: Config, s: State, e: Choices, s': State)
    requires Inv(c, s, -1) && NoneForgotten(s) && Willing(c, e) && c.nPer >= 1 && Step(c, s, Turn(e), s')
    ensures Work(s') <= Work(s) && NoneForgotten(s')
    ensures s.kernel == {} && !NoneActive(s) ==> Work(s') < Work(s)
  {
    hide Inv, Work, Passes, SubmitBatch, NoneForgotten, NoneActive, Shape;
    PassesWork(c, s, e);
    PassesKeep(c, s, e);
    var p := Passes(c, s, e);
    SubmitWork(c, p, e.submit(|p.batch|));
    SubmitRemembers(c, p, e.submit(|p.batch|));
  }

  /** A step of a willing environment that gives each request a result. */
  ghost predicate Onward(c: Config, ev: Event)
  {
    match ev
    case Turn(e) => Willing(c, e)
    case Report(_, res, _) => res != -EINPROGRESS
  }

  /** A report, or a turn that does not wait for one. */
  predicate Counts(s: State, ev: Event) { ev.Report? || s.kernel == {} }

  ghost predicate IsTail(c: Config, ss: seq<State>, evs: seq<Event>)
  {
    && |ss| == |evs| + 1 && c.nPer >= 1 && Inv(c, ss[0], -1) && NoneForgotten(ss[0])
    && forall i :: 0 <= i < |evs| ==> Step(c, ss[i], evs[i], ss[i + 1]) && Onward(c, evs[i])
  }

  lemma TailStep(c: Config, ss: seq<State>, evs: seq<Event>, i: nat)
    requires IsTail(c, ss, evs) && i < |evs|
    ensures |ss| == |evs| + 1 && c.nPer >= 1 && Step(c, ss[i], evs[i], ss[i + 1]) && Onward(c, evs[i])
  {
  }

  lemma TailStart(c: Config, ss: seq<State>, evs: seq<Event>)
    requires IsTail(c, ss, evs)
    ensures |ss| > 0 && Inv(c, ss[0], -1) && NoneForgotten(ss[0])
  {
  }

  lemma OnwardWork(c: Config, s: State, ev: Event, s': State)
    requires Inv(c, s, -1) && NoneForgotten(s) && c.nPer >= 1 && Step(c, s, ev, s') && Onward(c, ev)
    ensures Inv(c, s', -1) && NoneForgotten(s') && Work(s') <= Work(s)
    ensures Counts(s, ev) && !NoneActive(s) ==> Work(s') < Work(s)
  {
    hide Inv, Work, Passes, Complete, SubmitBatch, NoneForgotten, NoneActive, Willing, Shape;
    StepKeeps(c, s, ev, s');
    match ev
    case Turn(e) => TurnWork(c, s, e, s');
    case Report(k, res, other) =>
      CompleteWork(c, s, k, res, other);
      ReportRemembersIff(c, s, k, res, other);
  }

  /** How many of the first `n` events count. */
  function Counted(ss: seq<State>, evs: seq<Event>, n: nat): nat
    requires n <= |evs| < |ss|
  {
    if n == 0 then 0 else Counted(ss, evs, n - 1) + if Counts(ss[n - 1], evs[n - 1]) then 1 else 0
  }

  lemma {:induction false} RunWork(c: Config, ss: seq<State>, evs: seq<Event>, n: nat)
    requires IsTail(c, ss, evs) && n <= |evs| < |ss| && forall j :: 0 <= j < n ==> !NoneActive(ss[j])
    ensures Inv(c, ss[n], -1) && NoneForgotten(ss[n]) && Counted(ss, evs, n) + Work(ss[n]) <= Work(ss[0])
  {
    hide IsTail, Inv, Work, Step, Onward, NoneForgotten, NoneActive;
    if n == 0 {
      TailStart(c, ss, evs);
    } else {
      RunWork(c, ss, evs, n - 1);
      TailStep(c, ss, evs, n - 1);
      OnwardWork(c, ss[n - 1], evs[n - 1], ss[n]);
    }
  }

  /**
    Every file is handed over in the end, whatever fails: with memory granted, batches taken or refused,
    and a result for every request, the scheduler is idle before the reports, and the turns that
    wait for none, outnumber the work there was.
   */
  lemma AllHandedOver(c: Config, ss: seq<State>, evs: seq<Event>, n: nat) returns (j: nat)
    requires IsTail(c, ss, evs) && n <= |evs| < |ss| && Counted(ss, evs, n) > Work(ss[0])
    ensures j < n && NoneActive(ss[j]) && ss[j].totalMem == 0
    ensures forall t :: 0 <= t < ss[j].accepted ==> HandedOver(ss[j], t)
  {
    hide IsTail, Inv, Work, NoneForgotten, NoneActive;
    if forall i :: 0 <= i < n ==> !NoneActive(ss[i]) {
      RunWork(c, ss, evs, n);
      assert false;
    } else {
      j := FirstIdleState(ss, n);
      RunWork(c, ss, evs, j);
      Resting(c, ss[j]);
    }
  }

  lemma FirstIdleState(ss: seq<State>, n: nat) returns (j: nat)
    requires n <= |ss| && exists i :: 0 <= i < n && NoneActive(ss[i])
    ensures j < n && NoneActive(ss[j]) && forall i :: 0 <= i < j ==> !NoneActive(ss[i])
  {
    j := 0;
    while !NoneActive(ss[j])
      invariant j < n && forall i :: 0 <= i < j ==> !NoneActive(ss[i])
      decreases n - j
    {
      j := j + 1;
    }
  }

  lemma Resting(c: Config, s: State)
    requires Inv(c, s, -1) && NoneActive(s)
    ensures s.totalMem == 0 && forall t :: 0 <= t < s.accepted ==> HandedOver(s, t)
  {
    hide Inv;
    IdleIsClean(c, s);
  }

  // ---- a request that is forgotten ----

  lemma TurnRemembers(c: Config, s: State, e: Choices, s': State)
    requires Inv(c, s, -1) && NoneForgotten(s) && Step(c, s, Turn(e), s')
    ensures NoneForgotten(s')
  {
    hide Inv, UpdateBlocks, UpdateFiles, AcceptJobs, Shape, Pending, NoneForgotten, SubmitBatch;
    InvPending(c, s);
    SameSizes(c, s, s);
    UpdateBlocksKeeps(c, s, |s.blocks|);
    UpdateBlocksRemember(c, s, |s.blocks|);
    UpdateFilesRemember(c, UpdateBlocks(c, s, |s.blocks|), e.memory, c.nFile);
    AcceptJobsRemember(c, UpdateFiles(c, UpdateBlocks(c, s, |s.blocks|), e.memory, c.nFile), 0, e.jobs);
    PassesKeep(c, s, e);
    var p := Passes(c, s, e);
    SubmitRemembers(c, p, e.submit(|p.batch|));
  }

  /** In a run in which no request is reported to be still in progress, none is forgotten. */
  lemma {:induction false} RunForgetsNothing(c: Config, ss: seq<State>, evs: seq<Event>, n: nat)
    requires IsRun(c, ss, evs) && n < |ss|
    requires forall i :: 0 <= i < n && evs[i].Report? ==> evs[i].res != -EINPROGRESS
    ensures NoneForgotten(ss[n])
  {
    if n == 0 {
      assert forall k :: !Outstanding(ss[0], k);
    } else {
      RunForgetsNothing(c, ss, evs, n - 1);
      RunInv(c, ss, evs, n - 1);
      assert Step(c, ss[n - 1], evs[n - 1], ss[n - 1 + 1]);
      hide IsRun, Inv, NoneForgotten;
      match evs[n - 1]
      case Turn(e) => TurnRemembers(c, ss[n - 1], e, ss[n]);
      case Report(k, res, other) => ReportRemembersIff(c, ss[n - 1], k, res, other);
    }
  }

  /** A request that is in progress for its slot and waits nowhere. */
  ghost predicate Forgotten(s: State, k: int) { Outstanding(s, k) && k !in s.batch && k !in s.kernel }

  /** A change of slot `j` is none of a slot that waits nowhere. */
  ghost predicate Spares(s: State, t: State, j: int)
  {
    && |t.blocks| == |s.blocks| && t.kernel <= s.kernel
    && (forall l :: 0 <= l < |s.blocks| && l != j ==> t.blocks[l] == s.blocks[l])
    && (forall l :: l in t.batch ==> l in s.batch || l == j)
  }

  lemma SparedStays(s: State, t: State, j: int, k: int)
    requires Forgotten(s, k) && Spares(s, t, j) && j != k
    ensures Forgotten(t, k)
  {
  }

  lemma ScheduleSpares(c: Config, s: State, j: int, preallocated: bool, memory: Memory)
    requires IsSlot(c, s, j) && !s.blocks[j].inUse
    ensures Spares(s, ScheduleBlock(c, s, j, preallocated, memory), j)
  {
    ScheduleShape(c, s, j, preallocated, memory);
    hide ScheduleBlock;
  }

  lemma UpdateSlotSpares(c: Config, s: State, j: int)
    requires IsSlot(c, s, j)
    ensures Spares(s, UpdateSlot(c, s, j), j)
  {
    hide ScheduleBlock, Bytes, IsZero;
    var b := s.blocks[j];
    if FileOf(c, s, j).active && b.inUse && b.status == 0 && b.kind !in {READ, WRITE} {
      ScheduleSpares(c, Release(c, s, j, Mismatch(c, b)), j, true, None);
    }
  }

  lemma {:induction false} UpdateBlocksForget(c: Config, s: State, n: nat, k: int)
    requires Shape(c, s) && n <= |s.blocks| && Forgotten(s, k)
    ensures Forgotten(UpdateBlocks(c, s, n), k) && |UpdateBlocks(c, s, n).blocks| == |s.blocks|
  {
    hide Shape, UpdateSlot, Forgotten;
    if n > 0 {
      UpdateBlocksForget(c, s, n - 1, k);
      var t := UpdateBlocks(c, s, n - 1);
      ThereAt(c, t, n - 1);
      if k == n - 1 {
        WaitingStays(c, t, k);
        UpdateSlotSpares(c, t, k);
      } else {
        UpdateSlotSpares(c, t, n - 1);
        SparedStays(t, UpdateSlot(c, t, n - 1), n - 1, k);
      }
    }
  }

  lemma WaitingStays(c: Config, s: State, k: int)
    requires IsSlot(c, s, k) && Forgotten(s, k)
    ensures UpdateSlot(c, s, k) == s
  {
    InProgressStays(c, s, k);
  }

  lemma UpdateFileForgets(c: Config, s: State, i: int, memory: Memory, k: int)
    requires Inv(c, s, -1) && 0 <= i < |s.files| && Forgotten(s, k)
    ensures Forgotten(UpdateFile(c, s, i, memory), k)
  {
    InvPending(c, s);
    hide Inv, ScheduleBlock, FirstIdle, Count, ClearFile, Shape, Pending;
    var f := s.files[i];
    if f.active && f.nFinished >= Count(f) {
      HandWork(c, s, i);
    } else if f.active && Issued(f) < Count(f) && FirstIdle(c, s, i, 0) < |s.blocks| {
      var j := FirstIdle(c, s, i, 0);
      IdleSlotOf(c, s, i, j);
      ScheduleSpares(c, s, j, false, memory);
      SparedStays(s, ScheduleBlock(c, s, j, false, memory), j, k);
    }
  }

  lemma {:induction false} UpdateFilesForget(c: Config, s: State, memory: seq<Memory>, n: nat, k: int)
    requires Inv(c, s, -1) && |memory| == c.nFile && n <= c.nFile && Forgotten(s, k)
    ensures Forgotten(UpdateFiles(c, s, memory, n), k)
  {
    hide Inv, UpdateFile, Forgotten, Shape, Pending;
    InvPending(c, s);
    if n > 0 {
      UpdateFilesForget(c, s, memory, n - 1, k);
      UpdateFilesKeeps(c, s, memory, n - 1);
      SameSizes(c, s, UpdateFiles(c, s, memory, n - 1));
      UpdateFileForgets(c, UpdateFiles(c, s, memory, n - 1), n - 1, memory[n - 1], k);
    }
  }

  lemma {:induction false} AcceptJobsForget(c: Config, s: State, i: nat, jobs: seq<Job>)
    requires Shape(c, s) && i <= c.nFile
    ensures var t := AcceptJobs(c, s, i, jobs); t.blocks == s.blocks && t.batch == s.batch && t.kernel == s.kernel
    decreases c.nFile - i
  {
    if i < c.nFile {
      if s.files[i].active {
        AcceptJobsForget(c, s, i + 1, jobs);
      } else if jobs != [] {
        AcceptJobsForget(c, Accept(c, s, i, jobs[0]), i + 1, jobs[1..]);
      }
    }
  }

  lemma {:induction false} FailBatchForgets(c: Config, s: State, k: int)
    requires Shape(c, s) && BatchInRange(s) && Forgotten(s, k)
    ensures Forgotten(FailBatch(c, s), k)
    decreases |s.batch|
  {
    hide FailFirst, Shape;
    if s.batch != [] {
      FailFirstShape(c, s);
      FailFirstRange(c, s);
      assert Spares(s, FailFirst(c, s), s.batch[0]);
      SparedStays(s, FailFirst(c, s), s.batch[0], k);
      FailBatchForgets(c, FailFirst(c, s), k);
    }
  }

  lemma SubmitForgets(c: Config, s: State, submitted: int, k: int)
    requires Shape(c, s) && BatchInRange(s) && submitted <= |s.batch| && Forgotten(s, k)
    ensures Forgotten(SubmitBatch(c, s, submitted), k)
  {
    if s.batch != [] && submitted < 0 { FailBatchForgets(c, s, k); }
  }

  lemma StepForgets(c: Config, s: State, ev: Event, s': State, k: int)
    requires Inv(c, s, -1) && Step(c, s, ev, s') && Forgotten(s, k)
    ensures Forgotten(s', k)
  {
    hide Inv, UpdateBlocks, UpdateFiles, AcceptJobs, Shape, Pending, SubmitBatch, Complete, Outstanding;
    InvPending(c, s);
    SameSizes(c, s, s);
    match ev
    case Turn(e) =>
      UpdateBlocksKeeps(c, s, |s.blocks|);
      UpdateBlocksForget(c, s, |s.blocks|, k);
      var t := UpdateBlocks(c, s, |s.blocks|);
      UpdateFilesForget(c, t, e.memory, c.nFile, k);
      AcceptJobsForget(c, UpdateFiles(c, t, e.memory, c.nFile), 0, e.jobs);
      var p := Passes(c, s, e);
      SamePlace(UpdateFiles(c, t, e.memory, c.nFile), p, k);
      SubmitForgets(c, p, e.submit(|p.batch|), k);
    case Report(j, res, other) =>
      assert j != k;
      ReportSpares(c, s, j, res, other);
      SparedStays(s, s', j, k);
  }

  lemma SamePlace(s: State, t: State, k: int)
    requires Forgotten(s, k) && t.blocks == s.blocks && t.batch == s.batch && t.kernel == s.kernel
    ensures Forgotten(t, k)
  {
  }

  lemma ReportSpares(c: Config, s: State, j: int, res: int, other: seq<byte>)
    requires IsSlot(c, s, j)
    ensures Spares(s, Complete(c, s, j, res, other), j)
  {
    hide BufferAfter, DestinationAfter, BringsOther;
  }

  /** A request that is forgotten is never looked at again, and the scheduler never rests. */
  lemma {:induction false} ForgottenForever(c: Config, ss: seq<State>, evs: seq<Event>, i: nat, n: nat, k: int)
    requires IsRun(c, ss, evs) && i <= n < |ss| && Forgotten(ss[i], k)
    ensures Forgotten(ss[n], k) && !NoneActive(ss[n])
    decreases n
  {
    hide IsRun, Inv, Step, Forgotten, NoneActive;
    RunLength(c, ss, evs);
    RunInv(c, ss, evs, n);
    if i < n {
      ForgottenForever(c, ss, evs, i, n - 1, k);
      RunInv(c, ss, evs, n - 1);
      RunStep(c, ss, evs, n - 1);
      StepForgets(c, ss[n - 1], evs[n - 1], ss[n], k);
    }
    ActiveOwner(c, ss[n], k);
  }

  lemma ActiveOwner(c: Config, s: State, k: int)
    requires Inv(c, s, -1) && Forgotten(s, k)
    ensures !NoneActive(s)
  {
    hide FileOk, SlotBytes, SlotFaults, Held, Delivered, Distinct, Pending;
    ShapeAt(c, s, k);
    assert SlotOk(c, FileOf(c, s, k), s.blocks[k]);
  }
}
