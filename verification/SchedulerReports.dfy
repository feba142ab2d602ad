/** What the readback of a block comes to: which errors are counted, and that none is lost on the way. */
module SchedulerReports {
  import opened Basics
  import opened FileJobs
  import opened SchedulerSpec
  import opened SchedulerInv
  import opened SchedulerSteps
  import opened SchedulerPasses
  import opened SchedulerRuns

  // ---- one block ----

  /** What the kernel's report says: the status is zero for a request done in full, or one of no bytes. */
  lemma ReportedStatus(c: Config, s: State, k: int, res: int, other: seq<byte>)
    requires Inv(c, s, -1) && k in s.kernel && IsSlot(c, s, k)
    ensures var b, b' := s.blocks[k], Complete(c, s, k, res, other).blocks[k];
            && (b'.status == 0 <==> res == b.cbBytes || res == 0)
            && (b'.status == EINPROGRESS <==> res == -EINPROGRESS)
            && b' == b.(status := b'.status, data := b'.data)
  {
    assert Outstanding(s, k);
    InvAt(c, s, k, -1);
  }

  /**
    A block whose request failed is over with the next look at it: its number is finished, its slot
    and buffer are free, no request of it follows, and no error is counted.
   */
  lemma FailureEndsBlock(c: Config, s: State, k: int, res: int, other: seq<byte>)
    requires Inv(c, s, -1) && k in s.kernel && IsSlot(c, s, k)
    requires res != s.blocks[k].cbBytes && res != 0 && res != -EINPROGRESS
    ensures var s1 := Complete(c, s, k, res, other);
            var s2 := UpdateBlock(c, s1, k);
            var f, f2 := FileOf(c, s1, k), FileOf(c, s2, k);
            && s2.blocks[k] == Idle(None) && s2.batch == s.batch && k !in s2.kernel
            && f2.finished == f.finished + {s.blocks[k].jobno} && f2.nFinished == f.nFinished + 1
            && f2.nErrors == f.nErrors && f2.dst == f.dst
            && (s.blocks[k].kind != WRITE ==> f2.dst == FileOf(c, s, k).dst)
  {
    ReportedStatus(c, s, k, res, other);
    KernelSlot(c, s, k);
    hide Inv, BufferAfter, BringsOther;
    GivesUp(c, Complete(c, s, k, res, other), k);
    hide UpdateBlock;
  }

  lemma KernelSlot(c: Config, s: State, k: int)
    requires Inv(c, s, -1) && k in s.kernel
    ensures k !in s.batch
  {
  }

  lemma GivesUp(c: Config, s: State, k: int)
    requires IsSlot(c, s, k) && s.blocks[k].status != 0 && s.blocks[k].status != EINPROGRESS
    ensures var s' := UpdateBlock(c, s, k);
            var f, f' := FileOf(c, s, k), FileOf(c, s', k);
            && s'.blocks[k] == Idle(None) && s'.batch == s.batch && s'.kernel == s.kernel
            && f'.finished == f.finished + {s.blocks[k].jobno} && f'.nFinished == f.nFinished + 1
            && f'.nErrors == f.nErrors && f'.dst == f.dst
  {
  }

  /** A readback in full compares the bytes of the destination with what was to be written. */
  lemma ReadbackCounts(c: Config, s: State, k: int, other: seq<byte>)
    requires Inv(c, s, -1) && k in s.kernel && IsSlot(c, s, k) && s.blocks[k].kind == READDST
    requires Aligned(FileOf(c, s, k))
    ensures var f, b := FileOf(c, s, k), s.blocks[k];
            var s1 := Complete(c, s, k, b.cbBytes, other);
            var s2 := UpdateBlock(c, s1, k);
            && FileOf(c, s2, k).nErrors == f.nErrors + (if c.hash(DstPart(f, b.jobno)) != b.srcHash then 1 else 0)
            && (b.jobno in FileOf(c, s1, k).faulty <==> c.hash(DstPart(f, b.jobno)) != b.srcHash)
            && (b.jobno !in f.unread ==> b.srcHash == c.hash(SrcPart(f, b.jobno)))
  {
    assert Outstanding(s, k);
    InvAt(c, s, k, -1);
    var f, b := FileOf(c, s, k), s.blocks[k];
    FullRead(c, f, b, other);
    ReportedStatus(c, s, k, b.cbBytes, other);
    hide Inv, BufferAfter, DstPart, SrcPart, FileOk, SlotCounts, SlotBytes, ScheduleBlock;
    DoneInFull(c, s, Complete(c, s, k, b.cbBytes, other), k, other);
  }

  lemma DoneInFull(c: Config, s: State, s1: State, k: int, other: seq<byte>)
    requires IsSlot(c, s, k) && s.blocks[k].kind == READDST && s.blocks[k].data.Some?
    requires s1 == Complete(c, s, k, s.blocks[k].cbBytes, other) && s1.blocks[k].status == 0
    ensures var f, b := FileOf(c, s, k), s.blocks[k];
            FileOf(c, UpdateBlock(c, s1, k), k).nErrors ==
            f.nErrors + (if c.hash(Bytes(BufferAfter(f, b, true, other), 0, b.nbytes)) != b.srcHash then 1 else 0)
  {
    hide BufferAfter, Bytes, ScheduleBlock;
    var errors := Mismatch(c, s1.blocks[k]);
    SameErrors(c, Release(c, s1, k, errors), k, true, None);
  }

  lemma SameErrors(c: Config, s: State, k: int, preallocated: bool, memory: Memory)
    requires IsSlot(c, s, k)
    ensures FileOf(c, ScheduleBlock(c, s, k, preallocated, memory), k).nErrors == FileOf(c, s, k).nErrors
  {
  }

  /** Before the readback the buffer is cleared, so that bytes which do not come are not taken for those written. */
  lemma ClearedForReadback(c: Config, s: State, k: int)
    requires Inv(c, s, -1) && IsSlot(c, s, k) && s.blocks[k].inUse && s.blocks[k].kind == WRITE
    requires s.blocks[k].status == 0
    requires c.readback
    ensures var s' := UpdateBlock(c, s, k);
            && s'.batch == s.batch + [k] && s'.blocks[k].kind == READDST
            && Bytes(Buffer(s'.blocks[k]), 0, s.blocks[k].nbytes) == Zeros(s.blocks[k].nbytes)
  {
    InvAt(c, s, k, -1);
    hide Inv;
    var b := s.blocks[k];
    StartSpliced(Buffer(b), Zeros(b.nbytes));
  }

  lemma StartSpliced(d: seq<byte>, x: seq<byte>)
    ensures Bytes(Splice(d, 0, x), 0, |x|) == x
  {
  }

  /** A readback that brings no bytes counts as done, and as an error unless zeros have the hash that was kept. */
  lemma NothingReadBack(c: Config, s: State, k: int)
    requires Inv(c, s, -1) && k in s.kernel && IsSlot(c, s, k) && s.blocks[k].kind == READDST
    requires s.blocks[k].nbytes <= |Buffer(s.blocks[k])|
    requires Bytes(Buffer(s.blocks[k]), 0, s.blocks[k].nbytes) == Zeros(s.blocks[k].nbytes)
    ensures var f, b := FileOf(c, s, k), s.blocks[k];
            var s2 := UpdateBlock(c, Complete(c, s, k, 0, Buffer(b)), k);
            FileOf(c, s2, k).nErrors == f.nErrors + (if c.hash(Zeros(b.nbytes)) != b.srcHash then 1 else 0)
  {
    assert Outstanding(s, k);
    InvAt(c, s, k, -1);
    hide Inv;
    var s1 := Complete(c, s, k, 0, Buffer(s.blocks[k]));
    assert s1.blocks[k].status == 0 && Buffer(s1.blocks[k]) == Buffer(s.blocks[k]);
    hide Complete, ScheduleBlock, Bytes;
    SameErrors(c, Release(c, s1, k, Mismatch(c, s1.blocks[k])), k, true, None);
  }

  /** A block that was read is written, unless it is all zeros and files are to be sparse; then it is done. */
  lemma WrittenUnlessSparse(c: Config, s: State, k: int)
    requires Inv(c, s, -1) && IsSlot(c, s, k) && s.blocks[k].inUse && s.blocks[k].kind == READ
    requires s.blocks[k].status == 0
    ensures var b, s' := s.blocks[k], UpdateBlock(c, s, k);
            if c.sparse && Bytes(Buffer(b), 0, b.nbytes) == Zeros(|Bytes(Buffer(b), 0, b.nbytes)|) then
              s'.batch == s.batch && s'.blocks[k].kind == FINISH && s'.files == s.files
            else
              s'.batch == s.batch + [k] && s'.blocks[k].kind == WRITE && s'.blocks[k].status == EINPROGRESS
  {
    hide Inv, Writing;
    ZeroBytes(Bytes(Buffer(s.blocks[k]), 0, s.blocks[k].nbytes));
    WritingShape(c, s.blocks[k]);
    hide IsZero, Bytes;
    assert s.files[Parent(c, k) := FileOf(c, s, k)] == s.files;
  }

  lemma WritingShape(c: Config, b: Block)
    ensures Writing(c, b).kind == WRITE && Writing(c, b).status == EINPROGRESS
  {
  }

  lemma ZeroBytes(s: seq<byte>)
    ensures IsZero(s) <==> s == Zeros(|s|)
  {
  }

  // ---- a file that is handed over ----

  /** The errors counted are the blocks that were refused or brought other bytes when read back. */
  lemma ErrorsAreFaults(f: FileJob)
    requires Delivered(f)
    ensures f.nErrors == |f.faulty| && forall b :: b in f.faulty ==> 0 <= b < Count(f)
  {
    hide FileBytes, Count;
    forall b | b in f.faulty ensures b in f.finished { assert 0 <= b < Issued(f); }
    assert f.faulty * f.finished == f.faulty;
  }

  lemma RunCounts(c: Config, ss: seq<State>, evs: seq<Event>, n: nat, i: nat)
    requires IsRun(c, ss, evs) && n < |ss| && i < |ss[n].handed|
    ensures ss[n].handed[i].nErrors == |ss[n].handed[i].faulty|
  {
    RunInv(c, ss, evs, n);
    ErrorsAreFaults(ss[n].handed[i]);
  }

  // ---- a fault stays on record ----

  predicate InFile(s: State, i: int, t: int, b: int)
  {
    0 <= i < |s.files| && s.files[i].active && s.files[i].ticket == t && b in s.files[i].faulty
  }

  predicate InHanded(s: State, h: int, t: int, b: int)
  {
    0 <= h < |s.handed| && s.handed[h].ticket == t && b in s.handed[h].faulty
  }

  /** Block `b` of the job with ticket `t` is on record as faulty. */
  ghost predicate OnRecord(s: State, t: int, b: int)
  {
    (exists i :: InFile(s, i, t, b)) || (exists h :: InHanded(s, h, t, b))
  }

  predicate KeepsRecord(f: FileJob, g: FileJob)
  {
    f.active ==> g.active && g.ticket == f.ticket && f.faulty <= g.faulty
  }

  ghost predicate Grows(s: State, s': State)
  {
    && |s'.files| == |s.files| && s'.handed == s.handed
    && forall i :: 0 <= i < |s.files| ==> KeepsRecord(s.files[i], s'.files[i])
  }

  lemma GrowsKeeps(s: State, s': State, t: int, b: int)
    requires Grows(s, s') && OnRecord(s, t, b)
    ensures OnRecord(s', t, b)
  {
    if i :| InFile(s, i, t, b) {
      assert KeepsRecord(s.files[i], s'.files[i]) && InFile(s', i, t, b);
    } else {
      var h :| InHanded(s, h, t, b);
      assert InHanded(s', h, t, b);
    }
  }

  lemma GrowsOn(s: State, t: State, u: State)
    requires Grows(s, t) && Grows(t, u)
    ensures Grows(s, u)
  {
    forall i | 0 <= i < |s.files| ensures KeepsRecord(s.files[i], u.files[i]) {
      assert KeepsRecord(s.files[i], t.files[i]) && KeepsRecord(t.files[i], u.files[i]);
    }
  }

  /** Only one file changes, and its record grows. */
  lemma OneGrows(c: Config, s: State, s': State, k: int)
    requires IsSlot(c, s, k) && s'.handed == s.handed
    requires exists f :: s'.files == s.files[Parent(c, k) := f] && KeepsRecord(FileOf(c, s, k), f)
    ensures Grows(s, s')
  {
  }

  lemma ScheduleGrows(c: Config, s: State, k: int, preallocated: bool, memory: Memory)
    requires IsSlot(c, s, k)
    ensures Grows(s, ScheduleBlock(c, s, k, preallocated, memory))
  {
  }

  lemma UpdateBlockGrows(c: Config, s: State, k: int)
    requires IsSlot(c, s, k)
    ensures Grows(s, UpdateBlock(c, s, k))
  {
    hide ScheduleBlock, Bytes, IsZero, Writing, ReadingBack;
    var b := s.blocks[k];
    if b.status == 0 && b.kind !in {READ, WRITE} {
      var t := Release(c, s, k, Mismatch(c, b));
      ScheduleGrows(c, t, k, true, None);
      GrowsOn(s, t, ScheduleBlock(c, t, k, true, None));
    }
  }

  lemma {:induction false} UpdateBlocksGrow(c: Config, s: State, n: nat)
    requires Shape(c, s) && n <= |s.blocks|
    ensures Grows(s, UpdateBlocks(c, s, n))
  {
    hide Shape, UpdateBlock, Grows;
    if n == 0 {
      GrowsSelf(s);
    } else {
      UpdateBlocksGrow(c, s, n - 1);
      var t := UpdateBlocks(c, s, n - 1);
      SameSizes(c, s, t);
      SlotThere(c, t, n - 1);
      if FileOf(c, t, n - 1).active && t.blocks[n - 1].inUse {
        UpdateBlockGrows(c, t, n - 1);
        GrowsOn(s, t, UpdateBlock(c, t, n - 1));
      }
    }
  }

  lemma GrowsSelf(s: State)
    ensures Grows(s, s)
  {
  }

  lemma SlotThere(c: Config, s: State, k: int)
    requires Shape(c, s) && 0 <= k < |s.blocks|
    ensures IsSlot(c, s, k)
  {
  }

  lemma FailFirstGrows(c: Config, s: State)
    requires Shape(c, s) && BatchInRange(s) && s.batch != []
    ensures Grows(s, FailFirst(c, s))
  {
  }

  lemma {:induction false} FailBatchGrows(c: Config, s: State)
    requires Shape(c, s) && BatchInRange(s)
    ensures Grows(s, FailBatch(c, s))
    decreases |s.batch|
  {
    hide Grows, FailFirst, Shape;
    if s.batch == [] {
      GrowsSelf(s);
    } else {
      FailFirstGrows(c, s);
      FailFirstRange(c, s);
      FailBatchGrows(c, FailFirst(c, s));
      GrowsOn(s, FailFirst(c, s), FailBatch(c, FailFirst(c, s)));
    }
  }

  lemma SubmitGrows(c: Config, s: State, submitted: int)
    requires Shape(c, s) && BatchInRange(s) && submitted <= |s.batch|
    ensures Grows(s, SubmitBatch(c, s, submitted))
  {
    if s.batch != [] && submitted < 0 { FailBatchGrows(c, s); }
  }

  lemma CompleteGrows(c: Config, s: State, k: int, res: int, other: seq<byte>)
    requires IsSlot(c, s, k)
    ensures Grows(s, Complete(c, s, k, res, other))
  {
    hide BufferAfter, DestinationAfter, BringsOther;
  }

  /** Handing a file over hands its record over. */
  lemma UpdateFileKeepsRecord(c: Config, s: State, i: int, memory: Memory, t: int, b: int)
    requires Shape(c, s) && 0 <= i < |s.files| && OnRecord(s, t, b)
    ensures OnRecord(UpdateFile(c, s, i, memory), t, b)
  {
    hide ScheduleBlock, FirstIdle, Shape, Count, ClearFile;
    var f := s.files[i];
    if f.active && f.nFinished >= Count(f) {
      var u := s.(handed := s.handed + [f]);
      SameShape(c, s, u);
      ClearedFiles(c, u, i);
      HandedRecord(s, ClearFile(c, u, i), i, t, b);
    } else if f.active {
      var k := FirstIdle(c, s, i, 0);
      if Issued(f) < Count(f) && k < |s.blocks| {
        SlotThere(c, s, k);
        ScheduleGrows(c, s, k, false, memory);
        GrowsKeeps(s, ScheduleBlock(c, s, k, false, memory), t, b);
      }
    }
  }

  lemma SameShape(c: Config, s: State, u: State)
    requires Shape(c, s) && u == s.(handed := u.handed)
    ensures Shape(c, u)
  {
  }

  lemma HandedRecord(s: State, s': State, i: int, t: int, b: int)
    requires 0 <= i < |s.files| && s'.handed == s.handed + [s.files[i]] && s'.files == s.files[i := NoFile()]
    requires OnRecord(s, t, b)
    ensures OnRecord(s', t, b)
  {
    if j :| InFile(s, j, t, b) {
      if j == i { assert InHanded(s', |s.handed|, t, b); } else { assert InFile(s', j, t, b); }
    } else {
      var h :| InHanded(s, h, t, b);
      assert InHanded(s', h, t, b);
    }
  }

  lemma {:induction false} SlotsCleared(c: Config, s: State, i: int, n: nat)
    requires Shape(c, s) && n <= |s.blocks|
    ensures ClearSlots(c, s, i, n).files == s.files && ClearSlots(c, s, i, n).handed == s.handed
  {
    if n > 0 { SlotsCleared(c, s, i, n - 1); }
  }

  lemma ClearedFiles(c: Config, s: State, i: int)
    requires Shape(c, s) && 0 <= i < |s.files|
    ensures ClearFile(c, s, i).files == s.files[i := NoFile()] && ClearFile(c, s, i).handed == s.handed
  {
    SlotsCleared(c, s, i, |s.blocks|);
  }

  lemma {:induction false} UpdateFilesKeepRecord(c: Config, s: State, memory: seq<Memory>, n: nat, t: int, b: int)
    requires Shape(c, s) && |memory| == c.nFile && n <= c.nFile && OnRecord(s, t, b)
    ensures OnRecord(UpdateFiles(c, s, memory, n), t, b)
  {
    hide Shape, OnRecord, UpdateFile;
    if n > 0 {
      UpdateFilesKeepRecord(c, s, memory, n - 1, t, b);
      SameSizes(c, s, UpdateFiles(c, s, memory, n - 1));
      UpdateFileKeepsRecord(c, UpdateFiles(c, s, memory, n - 1), n - 1, memory[n - 1], t, b);
    }
  }

  lemma AcceptGrows(c: Config, s: State, i: int, job: Job)
    requires Shape(c, s) && 0 <= i < |s.files| && !s.files[i].active
    ensures Grows(s, Accept(c, s, i, job))
  {
  }

  lemma {:induction false} AcceptJobsGrow(c: Config, s: State, i: nat, jobs: seq<Job>)
    requires Shape(c, s) && i <= c.nFile
    ensures Grows(s, AcceptJobs(c, s, i, jobs))
    decreases c.nFile - i
  {
    hide Shape, Grows, Accept;
    if i == c.nFile {
      GrowsSelf(s);
    } else {
      SameSizes(c, s, s);
      if s.files[i].active {
        AcceptJobsGrow(c, s, i + 1, jobs);
      } else if jobs == [] {
        GrowsSelf(s);
      } else {
        AcceptGrows(c, s, i, jobs[0]);
        var u := Accept(c, s, i, jobs[0]);
        AcceptJobsGrow(c, u, i + 1, jobs[1..]);
        GrowsOn(s, u, AcceptJobs(c, u, i + 1, jobs[1..]));
      }
    }
  }

  lemma StepKeepsRecord(c: Config, s: State, ev: Event, s': State, t: int, b: int)
    requires Step(c, s, ev, s') && OnRecord(s, t, b)
    ensures OnRecord(s', t, b)
  {
    hide OnRecord, Grows, UpdateBlocks, UpdateFiles, AcceptJobs, SubmitBatch, Complete, BatchInRange, Shape;
    match ev
    case Turn(e) =>
      SameSizes(c, s, s);
      var s1 := UpdateBlocks(c, s, |s.blocks|);
      UpdateBlocksGrow(c, s, |s.blocks|);
      GrowsKeeps(s, s1, t, b);
      UpdateFilesKeepRecord(c, s1, e.memory, c.nFile, t, b);
      var s2 := UpdateFiles(c, s1, e.memory, c.nFile);
      AcceptJobsGrow(c, s2, 0, e.jobs);
      GrowsKeeps(s2, AcceptJobs(c, s2, 0, e.jobs), t, b);
      var p := Passes(c, s, e);
      SubmitGrows(c, p, e.submit(|p.batch|));
      GrowsKeeps(p, s', t, b);
    case Report(k, res, other) =>
      CompleteGrows(c, s, k, res, other);
      GrowsKeeps(s, s', t, b);
  }

  lemma {:induction false} RunKeepsRecord(c: Config, ss: seq<State>, evs: seq<Event>, i: nat, n: nat, t: int, b: int)
    requires IsRun(c, ss, evs) && i <= n < |ss| && OnRecord(ss[i], t, b)
    ensures OnRecord(ss[n], t, b)
    decreases n
  {
    hide OnRecord, Step, Empty;
    if i < n {
      RunKeepsRecord(c, ss, evs, i, n - 1, t, b);
      assert Step(c, ss[n - 1], evs[n - 1], ss[n - 1 + 1]);
      StepKeepsRecord(c, ss[n - 1], evs[n - 1], ss[n], t, b);
    }
  }

  /** In a state of a run, a fault on record of a job that was handed over is counted in that file. */
  lemma RecordIsCounted(c: Config, s: State, h: int, b: int)
    requires Inv(c, s, -1) && 0 <= h < |s.handed| && OnRecord(s, s.handed[h].ticket, b)
    ensures s.handed[h].nErrors >= 1 && b in s.handed[h].faulty
  {
    hide FileOk, SlotOk, Pending, Held, Distinct, Shape;
    var t := s.handed[h].ticket;
    if i :| InFile(s, i, t, b) {
      ActiveNotHanded(s, i, h);
      assert false;
    } else {
      var g :| InHanded(s, g, t, b);
      assert g == h;
      ErrorsAreFaults(s.handed[h]);
      assert s.handed[h].faulty != {};
    }
  }

  lemma ActiveNotHanded(s: State, i: int, h: int)
    requires Tickets(s) && 0 <= i < |s.files| && s.files[i].active && 0 <= h < |s.handed|
    ensures s.files[i].ticket != s.handed[h].ticket
  {
    assert HandedOver(s, s.handed[h].ticket);
  }

  /** A readback in full, of a block whose source was read in full, brings bytes of another hash. */
  ghost predicate SeesDifference(c: Config, s: State, ev: Event)
  {
    && ev.Report? && IsSlot(c, s, ev.slot) && s.blocks[ev.slot].kind == READDST && ev.res == s.blocks[ev.slot].cbBytes
    && var f, j := FileOf(c, s, ev.slot), s.blocks[ev.slot].jobno;
      Aligned(f) && j !in f.unread && c.hash(DstPart(f, j)) != c.hash(SrcPart(f, j))
  }

  /** In every run, such a difference is counted as an error of the file that is handed over. */
  lemma DifferenceIsReported(c: Config, ss: seq<State>, evs: seq<Event>, i: nat, n: nat, h: nat)
    requires IsRun(c, ss, evs) && i < n < |ss| && SeesDifference(c, ss[i], evs[i])
    requires h < |ss[n].handed| && ss[n].handed[h].ticket == FileOf(c, ss[i], evs[i].slot).ticket
    ensures ss[n].handed[h].nErrors >= 1 && ss[i].blocks[evs[i].slot].jobno in ss[n].handed[h].faulty
  {
    RunLength(c, ss, evs);
    assert IsSlot(c, ss[i], evs[i].slot);
    hide OnRecord, SeesDifference, IsRun, Inv, Step, Shape;
    RunInv(c, ss, evs, i);
    RunInv(c, ss, evs, n);
    RunStep(c, ss, evs, i);
    PutOnRecord(c, ss[i], evs[i], ss[i + 1]);
    var t, b := FileOf(c, ss[i], evs[i].slot).ticket, ss[i].blocks[evs[i].slot].jobno;
    RunKeepsRecord(c, ss, evs, i + 1, n, t, b);
    RecordIsCounted(c, ss[n], h, b);
  }

  lemma PutOnRecord(c: Config, s: State, ev: Event, s': State)
    requires Inv(c, s, -1) && Step(c, s, ev, s') && SeesDifference(c, s, ev)
    ensures OnRecord(s', FileOf(c, s, ev.slot).ticket, s.blocks[ev.slot].jobno)
  {
    var k := ev.slot;
    ReadbackCounts(c, s, k, ev.other);
    assert Outstanding(s, k);
    InvAt(c, s, k, -1);
    hide Inv, BufferAfter, DestinationAfter, DstPart, SrcPart, BringsOther;
    ShapeAt(c, s, k);
    assert InFile(s', Parent(c, k), FileOf(c, s, k).ticket, s.blocks[k].jobno);
  }
}
