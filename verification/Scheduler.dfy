/** The transfer scheduler itself: arrays of file and block jobs that loops and callbacks update. */
module Scheduler {
  import opened Basics
  import opened FileJobs
  import opened SchedulerSpec
  import opened SchedulerInv
  import opened SchedulerSteps
  import opened SchedulerPasses
  import opened SchedulerRuns

  class CopyScheduler {
    const c: Config
    var fileJobs: seq<FileJob>
    var blockJobs: seq<Block>
    var cbBatch: seq<int>
    var finishQueue: seq<FileJob>
    var totalMemAllocated: int
    /** The requests the kernel has, and the number of jobs taken from the queue. */
    var kernel: set<int>
    var accepted: int

    ghost function View(): State
      reads this
    {
      State(fileJobs, blockJobs, cbBatch, kernel, finishQueue, accepted, totalMemAllocated)
    }

    ghost predicate Valid()
      reads this
    {
      Inv(c, View(), -1)
    }

    /** `createScheduler`. */
    constructor (config: Config)
      ensures Valid() && c == config && View() == Empty(config)
    {
      c := config;
      fileJobs := seq(config.nFile, _ => NoFile());
      blockJobs := seq(config.nFile * config.nPer, _ => Idle(None));
      cbBatch, kernel, finishQueue, accepted, totalMemAllocated := [], {}, [], 0, 0;
      new;
      EmptyShape(c);
      Empties(c);
    }

    /** `schedulerClearBlockCopyJob`. */
    method ClearBlockJob(k: int, nofree: bool)
      requires IsSlot(c, View(), k)
      modifies this
      ensures View() == ClearBlock(c, old(View()), k, nofree)
    {
      var i := Parent(c, k);
      var data := blockJobs[k].data;
      if !nofree {
        if data.Some? { totalMemAllocated := totalMemAllocated - fileJobs[i].blockSize; }
        data := None;
      }
      blockJobs := blockJobs[k := Idle(data)];
      assert fileJobs[i := fileJobs[i]] == fileJobs;
    }

    /** `schedIOSubmitDeferred`; its assertion on the size of the batch is the precondition. */
    method SubmitDeferred(k: int)
      requires |cbBatch| < c.nFile * c.nPer
      modifies this`cbBatch
      ensures cbBatch == old(cbBatch) + [k]
    {
      cbBatch := cbBatch + [k];
    }

    /** `schedulerScheduleBlockCopyJob`. */
    method ScheduleBlockJob(k: int, preallocated: bool, memory: Memory)
      requires IsSlot(c, View(), k) && |cbBatch| < c.nFile * c.nPer
      modifies this
      ensures View() == ScheduleBlock(c, old(View()), k, preallocated, memory)
    {
      var i := Parent(c, k);
      var f := fileJobs[i];
      var jobno := f.nScheduled + f.nFinished;
      var offset := f.blockSize * jobno;
      if offset >= |f.src| {
        ClearBlockJob(k, false);
        return;
      }
      var nbytes := Min(f.blockSize, |f.src| - offset);
      var data := blockJobs[k].data;
      if !preallocated {
        if memory.None? {
          ClearBlockJob(k, false);
          return;
        }
        totalMemAllocated := totalMemAllocated + f.blockSize;
        data := Some(seq(f.blockSize, memory.value));
      }
      blockJobs := blockJobs[k := Block(true, jobno, READ, EINPROGRESS, offset, nbytes, nbytes, data, 0)];
      SubmitDeferred(k);
      fileJobs := fileJobs[i := f.(nScheduled := f.nScheduled + 1)];
      ghost var s := old(View());
      if !preallocated {
        assert Reserve(c, s, k, memory.value).files == s.files;
        assert blockJobs == Start(c, Reserve(c, s, k, memory.value), k).blocks;
      }
    }

    /** `schedulerUpdateBlockCopyJob`. */
    method UpdateBlockJob(k: int)
      requires Valid() && IsSlot(c, View(), k) && blockJobs[k].inUse
      modifies this
      ensures View() == UpdateBlock(c, old(View()), k) && Valid()
    {
      hide Inv, ScheduleBlock, Pending, Bytes, IsZero;
      ghost var s := View();
      UpdateBlockKeeps(c, s, k);
      InvAt(c, s, k, -1);
      var i, b := Parent(c, k), blockJobs[k];
      assert fileJobs[i := fileJobs[i]] == fileJobs;
      if b.status == EINPROGRESS { return; }
      RestingIf(c, s, k);
      BatchHasRoom(c, s, k);
      if b.status == 0 && b.kind == READ {
        if c.sparse && IsZero(Bytes(Buffer(b), 0, b.nbytes)) {
          blockJobs := blockJobs[k := b.(kind := FINISH)];
          return;
        }
        blockJobs := blockJobs[k := Writing(c, b)];
        SubmitDeferred(k);
      } else if b.status == 0 && b.kind == WRITE {
        if c.readback {
          blockJobs := blockJobs[k := ReadingBack(b)];
          SubmitDeferred(k);
        } else {
          blockJobs := blockJobs[k := b.(kind := FINISH)];
        }
      } else {
        var errors := 0;
        if b.status == 0 && b.kind == READDST {
          var dstHash := c.hash(Bytes(Buffer(b), 0, b.nbytes));
          if dstHash != b.srcHash { errors := 1; }
        }
        fileJobs := fileJobs[i := ReleasedFile(fileJobs[i], b, errors)];
        ClearAfterRelease(c, s, k, errors);
        ClearBlockJob(k, b.status == 0);
        if b.status == 0 {
          ScheduleBlockJob(k, true, None);
        }
      }
    }

    /** `schedIOSubmitBatch`; `submitted` is what `io_submit` returns. */
    method SubmitBatchJobs(submitted: int) returns (rc: int)
      requires Valid() && submitted <= |cbBatch|
      modifies this
      ensures BatchInRange(old(View())) && View() == SubmitBatch(c, old(View()), submitted) && Valid()
      ensures rc == if old(cbBatch) != [] && submitted < 0 then -1 else 0
    {
      hide Inv, Pending, FailFirst;
      ghost var s := View();
      InvPending(c, s);
      BatchFits(c, s);
      SubmitKeeps(c, s, submitted);
      if cbBatch == [] { return 0; }
      if submitted >= 0 {
        kernel, cbBatch := kernel + (set i | 0 <= i < submitted :: cbBatch[i]), cbBatch[submitted..];
        return 0;
      }
      var n := 0;
      assert cbBatch[0..] == cbBatch;
      while n < |cbBatch|
        invariant 0 <= n <= |cbBatch| && cbBatch == s.batch && |blockJobs| == |s.blocks|
        invariant Rest(View(), n).batch == cbBatch[n..] && Shape(c, Rest(View(), n)) && BatchInRange(Rest(View(), n))
        invariant FailBatch(c, Rest(View(), n)) == FailBatch(c, s)
      {
        ghost var t := Rest(View(), n);
        var k := cbBatch[n];
        var i, b := Parent(c, k), blockJobs[k];
        assert IsSlot(c, View(), k) && t.batch[0] == k && t.batch[1..] == cbBatch[n + 1..];
        ClearBlockJob(k, false);
        var f := fileJobs[i];
        fileJobs := fileJobs[i := ReleasedFile(f, b, 1, true).(spoiled := f.spoiled + {b.jobno})];
        n := n + 1;
        FailedOne(c, t, Rest(View(), n));
        FailFirstRange(c, t);
      }
      cbBatch := [];
      return -1;
    }

    /** `rd_done` and `wr_done`, called when the kernel reports a request. */
    method Reported(k: int, res: int, other: seq<byte>)
      requires Valid() && k in kernel
      modifies this
      ensures IsSlot(c, old(View()), k) && View() == Complete(c, old(View()), k, res, other) && Valid()
    {
      hide Inv, BufferAfter, DestinationAfter;
      CompleteKeeps(c, View(), k, res, other);
      var i, b := Parent(c, k), blockJobs[k];
      var f, full := fileJobs[i], res == b.cbBytes;
      var status := 0;
      if res <= 0 {
        status := -res;
      } else if !full {
        status := EIO;
      }
      blockJobs := blockJobs[k := b.(status := status, data := Some(BufferAfter(f, b, full, other)))];
      var spoiled := f.spoiled + if full then {} else {b.jobno};
      var unread := f.unread + if b.kind == READ && !full then {b.jobno} else {};
      var faulty := f.faulty + if BringsOther(c, f, b, res, other) then {b.jobno} else {};
      fileJobs := fileJobs[i := f.(dst := DestinationAfter(f, b, full, other), spoiled := spoiled, unread := unread,
                                   faulty := faulty)];
      kernel := kernel - {k};
    }

    /** `schedulerClearFileCopyJob`. */
    method ClearFileJob(i: int)
      requires Shape(c, View()) && 0 <= i < c.nFile
      modifies this
      ensures View() == ClearFile(c, old(View()), i)
    {
      hide Shape, ClearSlots, ClearBlock;
      ghost var s := View();
      SizesAt(c, s);
      var base, j := i * c.nPer, 0;
      SlotIndex(c, i, c.nPer);
      BeforeSlots(c, s, i, base);
      while j < c.nPer
        invariant 0 <= j <= c.nPer && Shape(c, View()) && View() == ClearSlots(c, s, i, base + j)
      {
        SlotIndex(c, i, j);
        SizesAt(c, View());
        ClearSlotsStep(c, s, i, base + j);
        if blockJobs[base + j].inUse { ClearBlockJob(base + j, false); }
        j := j + 1;
      }
      AfterSlots(c, s, i, base + c.nPer);
      SizesAt(c, View());
      fileJobs := fileJobs[i := NoFile()];
    }

    /** One file slot of the second pass of `schedulerUpdate`. */
    method UpdateFileJob(i: int, memory: Memory)
      requires Valid() && 0 <= i < c.nFile
      modifies this
      ensures Shape(c, old(View())) && View() == UpdateFile(c, old(View()), i, memory) && Valid()
    {
      hide Inv, Pending, ScheduleBlock, ClearFile, FirstIdle, Shape;
      ghost var s := View();
      InvPending(c, s);
      SameSizes(c, s, s);
      UpdateFileKeeps(c, s, i, memory);
      var f := fileJobs[i];
      if !f.active { return; }
      var count := BlockCount(|f.src|, f.blockSize);
      if f.nFinished >= count {
        finishQueue := finishQueue + [f];
        ShapeHanded(c, s, finishQueue);
        ClearFileJob(i);
        return;
      }
      var j := 0;
      while j < c.nPer && f.nFinished + f.nScheduled < count
        invariant 0 <= j <= c.nPer && View() == s && Valid()
        invariant forall l :: 0 <= l < |s.blocks| && Parent(c, l) == i && l < i * c.nPer + j ==> s.blocks[l].inUse
      {
        SlotIndex(c, i, j);
        var k := i * c.nPer + j;
        SizesAt(c, s);
        if !blockJobs[k].inUse {
          FirstIdleAt(c, s, i, k);
          RestingIf(c, s, k);
          BatchHasRoom(c, s, k);
          ScheduleBlockJob(k, false, memory);
          return;
        }
        j := j + 1;
      }
      if f.nFinished + f.nScheduled < count {
        NoIdle(c, s, i);
      }
    }

    /** The first pass of `schedulerUpdate`. */
    method UpdateBlockJobs()
      requires Valid()
      modifies this
      ensures Shape(c, old(View())) && View() == UpdateBlocks(c, old(View()), |old(blockJobs)|) && Valid()
    {
      hide Inv, Pending, UpdateBlock, UpdateBlocks, Shape;
      ghost var s := View();
      InvPending(c, s);
      SizesAt(c, s);
      UpdateBlocksStart(c, s);
      var i := 0;
      while i < c.nFile
        invariant 0 <= i <= c.nFile && 0 <= i * c.nPer <= |s.blocks|
        invariant Valid() && Shape(c, View()) && View() == UpdateBlocks(c, s, i * c.nPer)
      {
        SlotIndex(c, i, c.nPer);
        SizesAt(c, View());
        var base := i * c.nPer;
        if fileJobs[i].active {
          var j := 0;
          while j < c.nPer
            invariant 0 <= j <= c.nPer && Valid() && Shape(c, View())
            invariant View() == UpdateBlocks(c, s, base + j) && |fileJobs| == c.nFile && fileJobs[i].active
          {
            SlotIndex(c, i, j);
            SizesAt(c, View());
            UpdateBlocksStep(c, s, base + j);
            UpdateBlocksKeeps(c, s, base + j + 1);
            if blockJobs[base + j].inUse { UpdateBlockJob(base + j); }
            SizesAt(c, View());
            j := j + 1;
          }
        } else {
          SkipInactive(c, s, i, c.nPer);
        }
        i := i + 1;
        assert i * c.nPer == base + c.nPer by { NextBase(c, i - 1); }
      }
    }

    /**
      The third pass of `schedulerUpdate`; `incoming` is what the job queue yields, of which the
      first `taken` are taken.
     */
    method AcceptNewJobs(incoming: seq<Job>, active: nat) returns (activeJobs: nat, taken: nat)
      requires Valid() && (active == 0 <==> NoneActive(View()))
      modifies this
      ensures Shape(c, old(View())) && View() == AcceptJobs(c, old(View()), 0, incoming) && Valid()
      ensures activeJobs == 0 <==> NoneActive(View())
      ensures taken <= |incoming| && accepted == old(accepted) + taken
      ensures taken < |incoming| ==> forall i :: 0 <= i < |fileJobs| ==> fileJobs[i].active
    {
      hide Inv, Pending, Shape, AcceptJobs;
      ghost var s := View();
      InvPending(c, s);
      activeJobs, taken := active, 0;
      var i := 0;
      assert incoming[0..] == incoming;
      while i < c.nFile
        invariant 0 <= i <= c.nFile && Valid() && Shape(c, View()) && taken <= |incoming|
        invariant accepted == s.accepted + taken
        invariant AcceptJobs(c, View(), i, incoming[taken..]) == AcceptJobs(c, s, 0, incoming)
        invariant activeJobs == 0 <==> NoneActive(View())
        invariant i <= |fileJobs| && forall n :: 0 <= n < i ==> fileJobs[n].active
      {
        SizesAt(c, View());
        AcceptJobsStep(c, View(), i, incoming[taken..]);
        if !fileJobs[i].active {
          if taken == |incoming| { return; }
          AcceptKeeps(c, View(), i, incoming[taken]);
          var job := incoming[taken];
          var dst := Zeros(AlignUp(|job.src|));
          fileJobs := fileJobs[i := FileJob(true, accepted, job.src, dst, job.blockSize, 0, 0, 0, {}, {}, {}, {})];
          accepted := accepted + 1;
          assert incoming[taken..][1..] == incoming[taken + 1..];
          activeJobs, taken := activeJobs + 1, taken + 1;
          assert fileJobs[i].active;
          InvPending(c, View());
        }
        i := i + 1;
      }
      SizesAt(c, View());
      AcceptJobsEnd(c, View(), incoming[taken..]);
    }

    /** `schedulerUpdate`; it returns whether there is more to do. */
    method Update(e: Choices, crawlDone: bool) returns (more: bool)
      requires Valid() && Fair(c, e)
      modifies this
      ensures Valid()
      ensures more ==> Step(c, old(View()), Turn(e), View())
      ensures !more ==> crawlDone && Shape(c, old(View())) && View() == Passes(c, old(View()), e)
      ensures !more ==> cbBatch == [] && kernel == {} && totalMemAllocated == 0 && NoneActive(View())
    {
      hide Inv, Pending, Shape, UpdateBlocks, UpdateFiles, UpdateFile, AcceptJobs, SubmitBatch, BatchInRange;
      ghost var s := View();
      InvPending(c, s);
      SizesAt(c, s);
      UpdateBlockJobs();
      ghost var s1 := View();
      InvPending(c, s1);
      UpdateFilesStart(c, s1, e.memory);
      var i := 0;
      while i < c.nFile
        invariant 0 <= i <= c.nFile && Valid() && Shape(c, View()) && View() == UpdateFiles(c, s1, e.memory, i)
      {
        UpdateFilesStep(c, s1, e.memory, i);
        UpdateFileJob(i, e.memory[i]);
        i := i + 1;
      }
      var activeJobs: nat := 0;
      SizesAt(c, View());
      for n := 0 to c.nFile
        invariant activeJobs == 0 <==> forall m :: 0 <= m < n ==> !fileJobs[m].active
      {
        if fileJobs[n].active { activeJobs := activeJobs + 1; }
      }
      var taken;
      activeJobs, taken := AcceptNewJobs(e.jobs, activeJobs);
      PassesKeep(c, s, e);
      if activeJobs == 0 && crawlDone {
        IdleIsClean(c, View());
        return false;
      }
      var rc := SubmitBatchJobs(e.submit(|cbBatch|));
      return true;
    }
  }

  /** Counting first and clearing afterwards is the same as releasing the slot. */
  lemma ClearAfterRelease(c: Config, s: State, k: int, errors: int)
    requires IsSlot(c, s, k)
    ensures var t := s.(files := s.files[Parent(c, k) := ReleasedFile(FileOf(c, s, k), s.blocks[k], errors)]);
            IsSlot(c, t, k) && IsSlot(c, Release(c, s, k, errors), k)
            && ClearBlock(c, t, k, true) == Release(c, s, k, errors)
            && ClearBlock(c, t, k, false) == ClearBlock(c, Release(c, s, k, errors), k, false)
  {
    var t := s.(files := s.files[Parent(c, k) := ReleasedFile(FileOf(c, s, k), s.blocks[k], errors)]);
    assert t.files[Parent(c, k) := FileOf(c, t, k)] == t.files;
    assert Release(c, s, k, errors).blocks[k := Idle(None)] == s.blocks[k := Idle(None)];
  }

  /** The state as it is once the first `n` requests of the batch are dealt with. */
  function Rest(s: State, n: nat): State
  {
    if n <= |s.batch| then s.(batch := s.batch[n..]) else s
  }

  lemma FailedOne(c: Config, t: State, u: State)
    requires Shape(c, t) && BatchInRange(t) && t.batch != [] && u.batch == t.batch[1..]
    requires var k := t.batch[0];
             var f, b := FileOf(c, t, k), t.blocks[k];
             u == ClearBlock(c, t, k, false).(
               batch := u.batch,
               files := t.files[Parent(c, k) := ReleasedFile(f, b, 1, true).(spoiled := f.spoiled + {b.jobno})])
    ensures u == FailFirst(c, t)
  {
    var k := t.batch[0];
    var r := FailFirst(c, t);
    assert r.files == u.files;
    assert r.blocks == u.blocks;
  }

  lemma SizesAt(c: Config, s: State)
    requires Shape(c, s)
    ensures |s.files| == c.nFile && |s.blocks| == c.nFile * c.nPer
  {
  }

  /** The slots of file slot `i` are the `nPer` consecutive ones from `i * nPer` on. */
  lemma SlotIndex(c: Config, i: nat, j: nat)
    requires i < c.nFile && j <= c.nPer
    ensures 0 <= i * c.nPer && i * c.nPer + j <= c.nFile * c.nPer
    ensures j < c.nPer ==> i * c.nPer + j < c.nFile * c.nPer && Parent(c, i * c.nPer + j) == i
  {
    MulMonotone(i + 1, c.nFile, c.nPer);
    assert c.nPer * (i + 1) == i * c.nPer + c.nPer && c.nPer * c.nFile == c.nFile * c.nPer;
    if j < c.nPer { QuotientOf(c.nPer, i, j); }
  }

  lemma QuotientOf(d: nat, q: nat, r: nat)
    requires r < d
    ensures (q * d + r) / d == q
  {
    var x := q * d + r;
    var p := x / d;
    assert x == p * d + x % d;
    assert d * (p + 1) == p * d + d && d * (q + 1) == q * d + d && d * q == q * d && d * p == p * d;
    if p < q { MulMonotone(p + 1, q, d); }
    if p > q { MulMonotone(q + 1, p, d); }
  }

  lemma ParentBounds(c: Config, k: nat, i: nat)
    requires c.nPer > 0 && Parent(c, k) == i
    ensures i * c.nPer <= k < i * c.nPer + c.nPer
  {
    assert k == k / c.nPer * c.nPer + k % c.nPer;
  }

  lemma ClearSlotsStep(c: Config, s: State, i: nat, n: nat)
    requires Shape(c, s) && n < |s.blocks| && Parent(c, n) == i
    ensures var t := ClearSlots(c, s, i, n);
            IsSlot(c, t, n) && ClearSlots(c, s, i, n + 1) == if t.blocks[n].inUse then ClearBlock(c, t, n, false) else t
  {
  }

  lemma {:induction false} BeforeSlots(c: Config, s: State, i: nat, n: nat)
    requires Shape(c, s) && n <= |s.blocks| && n <= i * c.nPer
    ensures ClearSlots(c, s, i, n) == s
  {
    if n > 0 {
      BeforeSlots(c, s, i, n - 1);
      if Parent(c, n - 1) == i {
        ParentBounds(c, n - 1, i);
        assert false;
      }
    }
  }

  lemma {:induction false} AfterSlots(c: Config, s: State, i: nat, n: nat)
    requires Shape(c, s) && i * c.nPer + c.nPer <= n <= |s.blocks|
    ensures ClearSlots(c, s, i, |s.blocks|) == ClearSlots(c, s, i, n)
    decreases |s.blocks| - n
  {
    if n < |s.blocks| {
      AfterSlots(c, s, i, n + 1);
      if Parent(c, n) == i {
        ParentBounds(c, n, i);
        assert false;
      }
    }
  }

  lemma ShapeHanded(c: Config, s: State, handed: seq<FileJob>)
    requires Shape(c, s)
    ensures Shape(c, s.(handed := handed))
  {
  }

  lemma FirstIdleAt(c: Config, s: State, i: int, k: nat)
    requires Shape(c, s) && k < |s.blocks| && Parent(c, k) == i && !s.blocks[k].inUse
    requires forall l :: 0 <= l < k && Parent(c, l) == i ==> s.blocks[l].inUse
    ensures FirstIdle(c, s, i, 0) == k
  {
  }

  lemma NoIdle(c: Config, s: State, i: nat)
    requires Shape(c, s) && i < c.nFile
    requires forall l :: 0 <= l < |s.blocks| && Parent(c, l) == i && l < i * c.nPer + c.nPer ==> s.blocks[l].inUse
    ensures FirstIdle(c, s, i, 0) == |s.blocks|
  {
    var r := FirstIdle(c, s, i, 0);
    if r < |s.blocks| { ParentBounds(c, r, i); }
  }

  predicate NoneActive(s: State) { forall i :: 0 <= i < |s.files| ==> !s.files[i].active }

  lemma UpdateBlocksStart(c: Config, s: State)
    requires Shape(c, s)
    ensures UpdateBlocks(c, s, 0) == s
  {
  }

  lemma UpdateBlocksStep(c: Config, s: State, n: nat)
    requires Shape(c, s) && n < |s.blocks|
    ensures var t := UpdateBlocks(c, s, n);
            IsSlot(c, t, n) && UpdateBlocks(c, s, n + 1) == UpdateSlot(c, t, n) &&
                |UpdateSlot(c, t, n).files| == |t.files|
            && UpdateSlot(c, t, n).files[Parent(c, n)].active == t.files[Parent(c, n)].active
  {
    var t := UpdateBlocks(c, s, n);
    assert Shape(c, t);
    hide UpdateBlock, UpdateBlocks;
    UpdateKeepsActive(c, t, n);
  }

  lemma UpdateKeepsActive(c: Config, s: State, k: int)
    requires IsSlot(c, s, k)
    ensures |UpdateBlock(c, s, k).files| == |s.files|
    ensures UpdateBlock(c, s, k).files[Parent(c, k)].active == s.files[Parent(c, k)].active
  {
  }

  lemma NextBase(c: Config, i: nat)
    ensures (i + 1) * c.nPer == i * c.nPer + c.nPer
  {
  }

  /** The slots of an inactive file are passed over. */
  lemma {:induction false} SkipInactive(c: Config, s: State, i: nat, j: nat)
    requires Shape(c, s) && i < c.nFile && j <= c.nPer && 0 <= i * c.nPer && i * c.nPer + j <= |s.blocks|
    requires |UpdateBlocks(c, s, i * c.nPer).files| == c.nFile && !UpdateBlocks(c, s, i * c.nPer).files[i].active
    ensures UpdateBlocks(c, s, i * c.nPer + j) == UpdateBlocks(c, s, i * c.nPer)
  {
    hide UpdateBlocks, UpdateBlock, Shape;
    if j > 0 {
      SkipInactive(c, s, i, j - 1);
      SlotIndex(c, i, j - 1);
      UpdateBlocksStep(c, s, i * c.nPer + (j - 1));
    }
  }

  lemma UpdateFilesStart(c: Config, s: State, memory: seq<Memory>)
    requires Shape(c, s) && |memory| == c.nFile
    ensures UpdateFiles(c, s, memory, 0) == s
  {
  }

  lemma UpdateFilesStep(c: Config, s: State, memory: seq<Memory>, n: nat)
    requires Shape(c, s) && |memory| == c.nFile && n < c.nFile
    ensures var t := UpdateFiles(c, s, memory, n);
            Shape(c, t) && n < |t.files| && UpdateFiles(c, s, memory, n + 1) == UpdateFile(c, t, n, memory[n])
  {
  }

  lemma AcceptJobsStep(c: Config, s: State, i: nat, jobs: seq<Job>)
    requires Shape(c, s) && i < c.nFile
    ensures i < |s.files| && AcceptJobs(c, s, i, jobs) ==
            if s.files[i].active then AcceptJobs(c, s, i + 1, jobs)
            else if jobs == [] then s
            else AcceptJobs(c, Accept(c, s, i, jobs[0]), i + 1, jobs[1..])
  {
  }

  lemma AcceptJobsEnd(c: Config, s: State, jobs: seq<Job>)
    requires Shape(c, s)
    ensures AcceptJobs(c, s, c.nFile, jobs) == s
  {
  }
}
