/** Every routine of the transfer scheduler, and every report of the kernel, keeps the invariant. */
module SchedulerPasses {
  import opened Basics
  import opened FileJobs
  import opened SchedulerSpec
  import opened SchedulerInv
  import opened SchedulerSteps
  import opened Cardinality

  /** Slot `k` waits neither in the batch nor in the kernel. */
  ghost predicate Resting(s: State, k: int) { k !in s.batch && k !in s.kernel }

  lemma RestingIf(c: Config, s: State, k: int)
    requires IsSlot(c, s, k) && Pending(c, s) && !Outstanding(s, k)
    ensures Resting(s, k)
  {
  }

  /** A slot that waits nowhere changes, and waits nowhere afterwards. */
  lemma PendingSame(c: Config, s: State, s': State, k: int)
    requires Changed(c, s, s', k) && Pending(c, s) && Resting(s, k)
    requires s'.batch == s.batch && s'.kernel == s.kernel && !Outstanding(s', k)
    ensures Pending(c, s')
  {
    hide FileOk, SlotOk, Shape;
    Others(c, s, s', k);
  }

  lemma Others(c: Config, s: State, s': State, k: int)
    requires Changed(c, s, s', k)
    ensures forall l :: l != k ==> Outstanding(s', l) == Outstanding(s, l)
    ensures forall l :: 0 <= l < |s.blocks| && l != k ==>
            IsSlot(c, s, l) && IsSlot(c, s', l) && FileOf(c, s, l).spoiled <= FileOf(c, s', l).spoiled &&
            s'.blocks[l] == s.blocks[l]
  {
    hide FileOk, SlotOk;
  }

  /** A slot that waits nowhere gets a request, which is added to the batch. */
  lemma PendingAppended(c: Config, s: State, s': State, k: int)
    requires Changed(c, s, s', k) && Pending(c, s) && Resting(s, k)
    requires s'.batch == s.batch + [k] && s'.kernel == s.kernel && Outstanding(s', k)
    ensures Pending(c, s')
  {
    hide FileOk, SlotOk, Shape;
    Others(c, s, s', k);
    assert forall l :: l in s'.batch <==> l in s.batch || l == k;
  }

  /** The kernel is done with a request: it is over, or its block is spoiled. */
  lemma PendingReported(c: Config, s: State, s': State, k: int)
    requires Changed(c, s, s', k) && Pending(c, s) && k in s.kernel
    requires s'.batch == s.batch && s'.kernel == s.kernel - {k}
    requires Outstanding(s', k) ==> s'.blocks[k].jobno in FileOf(c, s', k).spoiled
    ensures Pending(c, s')
  {
    hide FileOk, SlotOk, Shape;
    Others(c, s, s', k);
  }

  lemma PendingSpoiled(c: Config, s: State, s': State, k: int)
    requires Changed(c, s, s', k) && Pending(c, s) && s'.blocks[k] == s.blocks[k]
    requires s'.batch == s.batch && s'.kernel == s.kernel
    requires s'.blocks[k].jobno in FileOf(c, s', k).spoiled
    ensures Pending(c, s')
  {
    hide FileOk, SlotOk, Shape;
    Others(c, s, s', k);
  }

  // ---- one slot ----

  lemma InvAt(c: Config, s: State, k: int, spare: int)
    requires Inv(c, s, spare) && IsSlot(c, s, k)
    ensures FileOk(FileOf(c, s, k)) && SlotOk(c, FileOf(c, s, k), s.blocks[k]) && Pending(c, s)
    ensures s.blocks[k].data.Some? <==> s.blocks[k].inUse || k == spare
    ensures s.blocks[k].inUse ==> FileOf(c, s, k).nScheduled > 0
  {
    hide FileOk, SlotOk, Pending, Tickets, Distinct, Held, Delivered;
    if s.blocks[k].inUse {
      assert k in InUse(c, s, Parent(c, k));
    }
  }

  lemma ReserveKeeps(c: Config, s: State, k: int, contents: int -> byte)
    requires Inv(c, s, -1) && IsSlot(c, s, k) && !s.blocks[k].inUse
    ensures Inv(c, Reserve(c, s, k, contents), k)
  {
    hide Inv, Local, FileOk, SlotOk, Pending;
    InvAt(c, s, k, -1);
    var f := FileOf(c, s, k);
    BufferLocal(c, f, s.blocks[k], Some(seq(f.blockSize, contents)));
    var s' := Reserve(c, s, k, contents);
    RestingIf(c, s, k);
    PendingSame(c, s, s', k);
    ChangeKeeps(c, s, s', k, -1, k);
  }

  lemma FreeKeeps(c: Config, s: State, k: int, spare: int)
    requires Inv(c, s, spare) && spare in {-1, k} && IsSlot(c, s, k) && !s.blocks[k].inUse
    ensures Inv(c, ClearBlock(c, s, k, false), -1)
  {
    hide Inv, Local, FileOk, SlotOk, Pending;
    InvAt(c, s, k, spare);
    BufferLocal(c, FileOf(c, s, k), s.blocks[k], None);
    var s' := ClearBlock(c, s, k, false);
    RestingIf(c, s, k);
    PendingSame(c, s, s', k);
    ChangeKeeps(c, s, s', k, spare, -1);
  }

  lemma StartKeeps(c: Config, s: State, k: int)
    requires Inv(c, s, k) && IsSlot(c, s, k) && !s.blocks[k].inUse
    requires var f := FileOf(c, s, k); f.active && f.blockSize > 0 && f.blockSize * Issued(f) < |f.src|
    ensures Inv(c, Start(c, s, k), -1)
  {
    hide Inv, Local, FileOk, SlotOk, Pending;
    InvAt(c, s, k, k);
    StartLocal(c, FileOf(c, s, k), s.blocks[k]);
    var s' := Start(c, s, k);
    RestingIf(c, s, k);
    PendingAppended(c, s, s', k);
    ChangeKeeps(c, s, s', k, k, -1);
  }

  /** Starting a block, with the buffer of the block before it or with a new one. */
  lemma ScheduleKeeps(c: Config, s: State, k: int, preallocated: bool, memory: Memory)
    requires Inv(c, s, if preallocated then k else -1) && IsSlot(c, s, k) && !s.blocks[k].inUse
    requires FileOf(c, s, k).active && FileOf(c, s, k).blockSize > 0
    ensures Inv(c, ScheduleBlock(c, s, k, preallocated, memory), -1)
  {
    hide Inv, Reserve, Start, ClearBlock;
    var f := FileOf(c, s, k);
    if f.blockSize * Issued(f) >= |f.src| || (!preallocated && memory.None?) {
      FreeKeeps(c, s, k, if preallocated then k else -1);
    } else if preallocated {
      StartKeeps(c, s, k);
    } else {
      ReserveKeeps(c, s, k, memory.value);
      ReserveOnly(c, s, k, memory.value);
      StartKeeps(c, Reserve(c, s, k, memory.value), k);
    }
  }

  lemma ReserveOnly(c: Config, s: State, k: int, contents: int -> byte)
    requires IsSlot(c, s, k)
    ensures var s' := Reserve(c, s, k, contents);
            IsSlot(c, s', k) && FileOf(c, s', k) == FileOf(c, s, k) && s'.blocks[k].inUse == s.blocks[k].inUse
  {
  }

  /** A slot that waits nowhere gives up its block number and keeps its buffer. */
  lemma ReleaseKeeps(c: Config, s: State, k: int, errors: int, refused: bool)
    requires Inv(c, s, -1) && IsSlot(c, s, k) && s.blocks[k].inUse && Resting(s, k)
    requires var f, b := FileOf(c, s, k), s.blocks[k];
            && errors == (if refused || b.jobno in f.faulty then 1 else 0) && (refused ==> b.jobno !in f.faulty)
            && (Aligned(f) && b.jobno !in f.spoiled ==> Copied(f, b.jobno) && errors == 0)
    ensures var s' := Release(c, s, k, errors, refused);
            Inv(c, s', k) && !s'.blocks[k].inUse && FileOf(c, s', k).active && FileOf(c, s', k).blockSize > 0
  {
    hide Inv, Local, FileOk, SlotBytes, Pending;
    InvAt(c, s, k, -1);
    ReleaseLocal(c, FileOf(c, s, k), s.blocks[k], errors, refused);
    var s' := Release(c, s, k, errors, refused);
    PendingSame(c, s, s', k);
    ChangeKeeps(c, s, s', k, -1, k);
  }

  /** A step that only moves the slot's own record on, without a request. */
  lemma MoveKeeps(c: Config, s: State, k: int, b': Block)
    requires Inv(c, s, -1) && IsSlot(c, s, k) && !Outstanding(s, k) && b'.inUse && b'.data.Some? && s.blocks[k].inUse
    requires Local(c, FileOf(c, s, k), s.blocks[k], FileOf(c, s, k), b')
    ensures b'.status != EINPROGRESS ==> Inv(c, Touch(c, s, k, FileOf(c, s, k), b'), -1)
    ensures b'.status == EINPROGRESS ==> Inv(c, Touch(c, s, k, FileOf(c, s, k), b').(batch := s.batch + [k]), -1)
  {
    hide Inv, Local, FileOk, SlotOk, Pending;
    InvAt(c, s, k, -1);
    RestingIf(c, s, k);
    var s1 := Touch(c, s, k, FileOf(c, s, k), b');
    var s2 := s1.(batch := s.batch + [k]);
    if b'.status == EINPROGRESS {
      PendingAppended(c, s, s2, k);
      ChangeKeeps(c, s, s2, k, -1, -1);
    } else {
      PendingSame(c, s, s1, k);
      ChangeKeeps(c, s, s1, k, -1, -1);
    }
  }

  lemma AdvanceKeeps(c: Config, s: State, k: int)
    requires Inv(c, s, -1) && IsSlot(c, s, k) && s.blocks[k].inUse && s.blocks[k].status == 0
    requires s.blocks[k].kind in {READ, WRITE}
    ensures Inv(c, UpdateBlock(c, s, k), -1)
  {
    hide Inv, Local, FileOk, SlotOk, Pending, Touch, IsZero, Bytes;
    InvAt(c, s, k, -1);
    var f, b := FileOf(c, s, k), s.blocks[k];
    if b.kind == READ && c.sparse && IsZero(Bytes(Buffer(b), 0, b.nbytes)) {
      SparseLocal(c, f, b);
      MoveKeeps(c, s, k, b.(kind := FINISH));
    } else if b.kind == READ {
      WritingLocal(c, f, b);
      MoveKeeps(c, s, k, Writing(c, b));
    } else if c.readback {
      ReadingBackLocal(c, f, b);
      MoveKeeps(c, s, k, ReadingBack(b));
    } else {
      WrittenLocal(c, f, b);
      MoveKeeps(c, s, k, b.(kind := FINISH));
    }
  }

  lemma UpdateBlockKeeps(c: Config, s: State, k: int)
    requires Inv(c, s, -1) && IsSlot(c, s, k) && s.blocks[k].inUse
    ensures Inv(c, UpdateBlock(c, s, k), -1)
  {
    hide Inv, FileOk, SlotOk, Pending, Touch, Bytes, ScheduleBlock, ClearBlock, Release;
    var f, b := FileOf(c, s, k), s.blocks[k];
    if b.status == 0 && b.kind in {READ, WRITE} {
      AdvanceKeeps(c, s, k);
    } else if b.status != EINPROGRESS {
      InvAt(c, s, k, -1);
      RestingIf(c, s, k);
      DoneIsCopied(c, f, b);
      var errors := if b.status == 0 then Mismatch(c, b) else 0;
      ErrorsAreDue(c, f, b);
      ReleaseKeeps(c, s, k, errors, false);
      ReleaseShape(c, s, k, errors, false);
      if b.status == 0 {
        ScheduleKeeps(c, Release(c, s, k, errors), k, true, None);
      } else {
        FreeKeeps(c, Release(c, s, k, errors), k, k);
      }
    }
  }

  /** The comparison finds out whether the block is at fault. */
  lemma ErrorsAreDue(c: Config, f: FileJob, b: Block)
    requires SlotOk(c, f, b) && b.inUse && b.status != EINPROGRESS && (b.status == 0 ==> b.kind in {READDST, FINISH})
    ensures (if b.status == 0 then Mismatch(c, b) else 0) == if b.jobno in f.faulty then 1 else 0
  {
  }

  lemma ReleaseShape(c: Config, s: State, k: int, errors: int, refused: bool)
    requires IsSlot(c, s, k)
    ensures IsSlot(c, Release(c, s, k, errors, refused), k)
  {
  }

  /** Whatever the kernel reports, and whatever it left behind. */
  lemma CompleteKeeps(c: Config, s: State, k: int, res: int, other: seq<byte>)
    requires Inv(c, s, -1) && k in s.kernel
    ensures IsSlot(c, s, k) && Inv(c, Complete(c, s, k, res, other), -1)
  {
    assert IsSlot(c, s, k) && Outstanding(s, k);
    hide Inv, Local, FileOk, SlotBytes, Pending, DestinationAfter, BufferAfter, Lo, Shape;
    InvAt(c, s, k, -1);
    var f, b := FileOf(c, s, k), s.blocks[k];
    CompleteLocal(c, f, b, res, other);
    var s' := Complete(c, s, k, res, other);
    ShapeAt(c, s, k);
    PendingReported(c, s, s', k);
    ChangeKeeps(c, s, s', k, -1, -1);
  }

  // ---- a refused batch ----

  lemma SpoilKeeps(c: Config, s: State, k: int)
    requires Inv(c, s, -1) && IsSlot(c, s, k) && s.blocks[k].inUse
    ensures Inv(c, Spoil(c, s, k), -1)
  {
    hide Inv, Local, FileOk, SlotOk, Pending;
    InvAt(c, s, k, -1);
    SpoilLocal(c, FileOf(c, s, k), s.blocks[k]);
    var s' := Spoil(c, s, k);
    PendingSpoiled(c, s, s', k);
    ChangeKeeps(c, s, s', k, -1, -1);
  }

  lemma HeldSame(c: Config, s: State, s': State, n: nat)
    requires Shape(c, s) && Shape(c, s') && s'.blocks == s.blocks && n <= |s.blocks|
    requires forall k :: 0 <= k < |s.blocks| && s.blocks[k].data.Some? ==>
            FileOf(c, s', k).blockSize == FileOf(c, s, k).blockSize
    ensures Held(c, s', n) == Held(c, s, n)
  {
  }

  /** The first request leaves the batch; its block is spoiled. */
  lemma PopKeeps(c: Config, s: State)
    requires Inv(c, s, -1) && s.batch != []
    requires IsSlot(c, s, s.batch[0]) && s.blocks[s.batch[0]].jobno in FileOf(c, s, s.batch[0]).spoiled
    ensures Inv(c, s.(batch := s.batch[1..]), -1) && Resting(s.(batch := s.batch[1..]), s.batch[0])
  {
    var s' := s.(batch := s.batch[1..]);
    assert Pending(c, s') by {
      assert forall l :: l in s.batch <==> l == s.batch[0] || l in s'.batch;
    }
    hide Pending, Inv;
    QueueKeeps(c, s, s');
    RestingPopped(c, s);
  }

  /** Only the queues of requests change. */
  lemma QueueKeeps(c: Config, s: State, s': State)
    requires Inv(c, s, -1) && s' == s.(batch := s'.batch, kernel := s'.kernel) && Pending(c, s')
    ensures Inv(c, s', -1)
  {
    hide FileOk, SlotOk, Pending, Delivered, InUse, Tickets, Held;
    HeldSame(c, s, s', |s.blocks|);
    SameTickets(s, s');
    forall i | 0 <= i < |s.files| ensures InUse(c, s', i) == InUse(c, s, i) { SameUse(c, s, s', i); }
  }

  lemma SameUse(c: Config, s: State, s': State, i: int)
    requires s'.blocks == s.blocks
    ensures InUse(c, s', i) == InUse(c, s, i)
  {
  }

  lemma RestingPopped(c: Config, s: State)
    requires Shape(c, s) && Pending(c, s) && s.batch != []
    ensures Resting(s.(batch := s.batch[1..]), s.batch[0])
  {
    assert s.batch[0] in s.batch;
  }

  lemma BatchFits(c: Config, s: State)
    requires Shape(c, s) && Pending(c, s)
    ensures BatchInRange(s)
  {
    forall i | 0 <= i < |s.batch| ensures 0 <= s.batch[i] < |s.blocks| {
      assert s.batch[i] in s.batch;
    }
  }

  lemma SpoilOnly(c: Config, s: State, k: int)
    requires IsSlot(c, s, k)
    ensures var s' := Spoil(c, s, k);
            IsSlot(c, s', k) && s'.batch == s.batch && s'.blocks == s.blocks &&
              s.blocks[k].jobno in FileOf(c, s', k).spoiled
  {
  }

  lemma PopCommutes(c: Config, t: State, k: int, q: seq<int>)
    requires IsSlot(c, t, k)
    ensures IsSlot(c, Release(c, t, k, 1, true), k) && IsSlot(c, Release(c, t.(batch := q), k, 1, true), k)
    ensures ClearBlock(c, Release(c, t.(batch := q), k, 1, true), k, false) ==
            ClearBlock(c, Release(c, t, k, 1, true), k, false).(batch := q)
  {
  }

  lemma FailFirstKeeps(c: Config, s: State)
    requires Inv(c, s, -1) && s.batch != [] && BatchInRange(s)
    ensures Inv(c, FailFirst(c, s), -1)
  {
    var k := s.batch[0];
    assert k in s.batch && Outstanding(s, k);
    hide Inv, Release, ClearBlock, Spoil, Outstanding;
    SpoilKeeps(c, s, k);
    SpoilOnly(c, s, k);
    var t := Spoil(c, s, k);
    PopKeeps(c, t);
    var u := t.(batch := s.batch[1..]);
    NotAtFault(c, u, k);
    ReleaseKeeps(c, u, k, 1, true);
    ReleaseShape(c, u, k, 1, true);
    FreeKeeps(c, Release(c, u, k, 1, true), k, k);
    PopCommutes(c, t, k, s.batch[1..]);
  }

  lemma NotAtFault(c: Config, s: State, k: int)
    requires Inv(c, s, -1) && IsSlot(c, s, k) && Outstanding(s, k)
    ensures s.blocks[k].jobno !in FileOf(c, s, k).faulty
  {
    hide Pending, Tickets, Distinct, Held, Delivered, FileOk, SlotCounts, SlotBytes;
    assert SlotOk(c, FileOf(c, s, k), s.blocks[k]);
  }

  lemma FailFirstRange(c: Config, s: State)
    requires Shape(c, s) && BatchInRange(s) && s.batch != []
    ensures BatchInRange(FailFirst(c, s))
  {
  }

  lemma {:induction false} FailBatchKeeps(c: Config, s: State)
    requires Inv(c, s, -1) && BatchInRange(s)
    ensures Inv(c, FailBatch(c, s), -1)
    decreases |s.batch|
  {
    assert Shape(c, s);
    hide Inv, FailFirst;
    if s.batch != [] {
      FailFirstKeeps(c, s);
      FailFirstRange(c, s);
      FailBatchKeeps(c, FailFirst(c, s));
    }
  }

  lemma TakenPending(c: Config, s: State, n: nat)
    requires Shape(c, s) && Pending(c, s) && n <= |s.batch|
    ensures Pending(c, s.(kernel := s.kernel + (set i | 0 <= i < n :: s.batch[i]), batch := s.batch[n..]))
  {
    var s' := s.(kernel := s.kernel + (set i | 0 <= i < n :: s.batch[i]), batch := s.batch[n..]);
    forall l | l in s.batch ensures l in s'.batch || l in s'.kernel {
      var i :| 0 <= i < |s.batch| && s.batch[i] == l;
      if i >= n { assert s'.batch[i - n] == l; }
    }
    forall l | l in s'.kernel ensures Outstanding(s', l) {
      assert l in s.kernel || l in s.batch;
      assert Outstanding(s, l);
    }
    forall l | l in s'.batch ensures Outstanding(s', l) && l !in s'.kernel {
      var i :| 0 <= i < |s'.batch| && s'.batch[i] == l;
      assert s.batch[i + n] == l && l in s.batch;
      assert Outstanding(s, l);
    }
    forall l | 0 <= l < |s.blocks| && Outstanding(s', l) && s.blocks[l].jobno !in FileOf(c, s', l).spoiled
      ensures l in s'.batch || l in s'.kernel
    {
      assert Outstanding(s, l);
    }
  }

  lemma SubmitKeeps(c: Config, s: State, submitted: int)
    requires Inv(c, s, -1) && BatchInRange(s) && submitted <= |s.batch|
    ensures Inv(c, SubmitBatch(c, s, submitted), -1)
  {
    hide FileOk, SlotOk, Pending, Delivered, InUse, FailBatch, Tickets, Held;
    if s.batch != [] && submitted < 0 {
      FailBatchKeeps(c, s);
    } else if s.batch != [] {
      TakenPending(c, s, submitted);
      QueueKeeps(c, s, SubmitBatch(c, s, submitted));
    }
  }

  // ---- file slots ----

  ghost predicate Unused(c: Config, s: State, i: int)
  {
    forall k :: 0 <= k < |s.blocks| && Parent(c, k) == i ==> !s.blocks[k].inUse
  }

  lemma NoneInUse(c: Config, s: State, i: int)
    requires |InUse(c, s, i)| == 0
    ensures Unused(c, s, i)
  {
    forall k | 0 <= k < |s.blocks| && Parent(c, k) == i ensures !s.blocks[k].inUse {
      assert k !in InUse(c, s, i);
    }
  }

  /** A file slot none of whose block slots is in use may be given to another job. */
  lemma FileKeeps(c: Config, s: State, s': State, i: int)
    requires Inv(c, s, -1) && 0 <= i < |s.files| && Unused(c, s, i) && Shape(c, s')
    requires s'.blocks == s.blocks && s'.batch == s.batch && s'.kernel == s.kernel && s'.totalMem == s.totalMem
    requires forall j :: 0 <= j < |s.files| && j != i ==> s'.files[j] == s.files[j]
    requires FileOk(s'.files[i]) && s'.files[i].nScheduled == 0 && Tickets(s')
    requires forall h :: 0 <= h < |s'.handed| ==> Delivered(s'.handed[h])
    ensures Inv(c, s', -1)
  {
    hide FileOk, Delivered, Tickets, Held, Stage, SlotCounts;
    forall j | 0 <= j < |s'.files| ensures |InUse(c, s', j)| == s'.files[j].nScheduled {
      assert InUse(c, s', j) == InUse(c, s, j);
      if j == i { assert InUse(c, s, i) == {}; }
    }
    HeldSame(c, s, s', |s.blocks|);
    assert Distinct(c, s');
    FilePending(c, s, s', i);
    FileSlots(c, s, s', i);
  }

  lemma FilePending(c: Config, s: State, s': State, i: int)
    requires Shape(c, s) && Shape(c, s') && Pending(c, s) && Unused(c, s, i)
    requires s'.blocks == s.blocks && s'.batch == s.batch && s'.kernel == s.kernel
    requires forall j :: 0 <= j < |s.files| && j != i ==> s'.files[j] == s.files[j]
    ensures Pending(c, s')
  {
    forall k ensures Outstanding(s', k) == Outstanding(s, k) {}
    forall k | 0 <= k < |s.blocks| && Outstanding(s', k) ensures FileOf(c, s', k) == FileOf(c, s, k) {
      ShapeAt(c, s, k);
    }
  }

  lemma FileSlots(c: Config, s: State, s': State, i: int)
    requires Inv(c, s, -1) && Shape(c, s') && s'.blocks == s.blocks && Unused(c, s, i)
    requires forall j :: 0 <= j < |s.files| && j != i ==> s'.files[j] == s.files[j]
    ensures forall k :: 0 <= k < |s.blocks| ==> SlotOk(c, FileOf(c, s', k), s'.blocks[k])
  {
    hide FileOk, Delivered, Tickets, Held, Stage, Pending, Distinct, InUse;
    forall k | 0 <= k < |s.blocks| ensures SlotOk(c, FileOf(c, s', k), s'.blocks[k]) {
      ShapeAt(c, s, k);
      assert SlotOk(c, FileOf(c, s, k), s.blocks[k]);
    }
  }

  lemma {:induction false} NothingToClear(c: Config, s: State, i: int, n: nat)
    requires Shape(c, s) && n <= |s.blocks| && Unused(c, s, i)
    ensures ClearSlots(c, s, i, n) == s
  {
    if n > 0 { NothingToClear(c, s, i, n - 1); }
  }

  /** When all blocks are counted as finished, none is scheduled and each number is finished. */
  lemma FinishedFile(f: FileJob)
    requires FileOk(f) && f.active && f.nFinished >= Count(f)
    ensures Delivered(f)
  {
    hide FileBytes, Count;
    AllNumbers(f.finished, Count(f));
  }

  lemma HandKeeps(c: Config, s: State, i: int)
    requires Inv(c, s, -1) && 0 <= i < |s.files| && s.files[i].active && s.files[i].nFinished >= Count(s.files[i])
    ensures Unused(c, s, i)
    ensures Inv(c, ClearFile(c, s.(handed := s.handed + [s.files[i]]), i), -1)
  {
    var f := s.files[i];
    FinishedFile(f);
    NoneInUse(c, s, i);
    hide FileOk, SlotOk, Held, InUse, Pending, Distinct;
    var t := s.(handed := s.handed + [f]);
    NothingToClear(c, t, i, |t.blocks|);
    var s' := ClearFile(c, t, i);
    HandTickets(s, s', i);
    assert FileOk(NoFile()) by { NoFileOk(); }
    hide Delivered, Tickets;
    FileKeeps(c, s, s', i);
  }

  lemma NoFileOk()
    ensures FileOk(NoFile())
  {
  }

  lemma HandTickets(s: State, s': State, i: int)
    requires Tickets(s) && 0 <= i < |s.files| && s.files[i].active
    requires s'.files == s.files[i := NoFile()] && s'.handed == s.handed + [s.files[i]] && s'.accepted == s.accepted
    ensures Tickets(s')
  {
    var t0 := s.files[i].ticket;
    forall t ensures HandedOver(s', t) <==> HandedOver(s, t) || t == t0 {
      if HandedOver(s, t) {
        var j :| 0 <= j < |s.handed| && s.handed[j].ticket == t;
        assert s'.handed[j].ticket == t;
      }
      assert s'.handed[|s.handed|].ticket == t0;
      if HandedOver(s', t) && t != t0 {
        var j :| 0 <= j < |s'.handed| && s'.handed[j].ticket == t;
        assert s.handed[j].ticket == t;
      }
    }
    forall t | Working(s, t) && t != t0 ensures Working(s', t) {
      var j :| 0 <= j < |s.files| && s.files[j].active && s.files[j].ticket == t;
      assert s'.files[j].ticket == t;
    }
    forall j | 0 <= j < |s.handed| ensures s'.handed[j].ticket != t0 {
      assert s.handed[j].ticket == t0 ==> HandedOver(s, t0);
    }
  }

  lemma AcceptKeeps(c: Config, s: State, i: int, job: Job)
    requires Inv(c, s, -1) && 0 <= i < |s.files| && !s.files[i].active
    ensures Inv(c, Accept(c, s, i, job), -1)
  {
    assert s.files[i].nScheduled == 0 by { assert FileOk(s.files[i]); }
    NoneInUse(c, s, i);
    hide SlotOk, Held, InUse, Pending, Distinct, Delivered, FileOk;
    var s' := Accept(c, s, i, job);
    NewFileOk(s'.files[i]);
    AcceptTickets(s, s', i);
    hide Tickets;
    FileKeeps(c, s, s', i);
  }

  lemma NewFileOk(f: FileJob)
    requires f.nScheduled == f.nFinished == f.nErrors == 0 && f.finished == f.spoiled == f.faulty == {}
    requires f.dst == Zeros(AlignUp(|f.src|))
    ensures FileOk(f)
  {
    hide AlignUp, BlockCount, Lo, Hi;
    AlignUpLeast(|f.src|);
  }

  lemma AcceptTickets(s: State, s': State, i: int)
    requires Tickets(s) && 0 <= i < |s.files| == |s'.files| && !s.files[i].active && s'.files[i].active
    requires s'.files[i].ticket == s.accepted
    requires forall j :: 0 <= j < |s.files| && j != i ==> s'.files[j] == s.files[j]
    requires s'.handed == s.handed && s'.accepted == s.accepted + 1
    ensures Tickets(s')
  {
    forall t ensures HandedOver(s', t) == HandedOver(s, t) {}
    forall t | Working(s, t) ensures Working(s', t) {
      var j :| 0 <= j < |s.files| && s.files[j].active && s.files[j].ticket == t;
      assert s'.files[j].ticket == t;
    }
    assert Working(s', s.accepted);
  }
}
