/** What holds between the routines of the transfer scheduler, and how a change to one slot keeps it. */
module SchedulerInv {
  import opened Basics
  import opened FileJobs
  import opened SchedulerSpec

  ghost predicate Aligned(f: FileJob) { f.blockSize > 0 && f.blockSize % DIRECT_IO_ALIGN == 0 }

  function Lo(f: FileJob, b: int): int { f.blockSize * b }

  function Hi(f: FileJob, b: int): int { Lo(f, b) + Min(f.blockSize, |f.src| - Lo(f, b)) }

  function SrcPart(f: FileJob, b: int): seq<byte> { Bytes(f.src, Lo(f, b), Hi(f, b)) }

  function DstPart(f: FileJob, b: int): seq<byte> { Bytes(f.dst, Lo(f, b), Hi(f, b)) }

  ghost predicate Untouched(f: FileJob, b: int) { IsZero(DstPart(f, b)) }

  ghost predicate Copied(f: FileJob, b: int) { DstPart(f, b) == SrcPart(f, b) }

  /** The counters of a file agree with the history of its block numbers. */
  ghost predicate FileCounts(f: FileJob)
  {
    && 0 <= f.nScheduled && f.nFinished == |f.finished| && Issued(f) <= Count(f)
    && (forall b :: b in f.finished ==> 0 <= b < Issued(f))
    && (forall b :: b in f.spoiled ==> 0 <= b < Issued(f))
    && (forall b :: b in f.faulty ==> 0 <= b < Issued(f)) && f.nErrors == |f.faulty * f.finished|
    && (!f.active ==> f.nScheduled == 0)
  }

  /** No stale bytes behind the end of the file. */
  ghost predicate TailClean(f: FileJob) { IsZero(Bytes(f.dst, |f.src|, |f.dst|)) }

  /** Blocks not yet issued are still zero in the destination; finished blocks are there. */
  ghost predicate FileBytes(f: FileJob)
  {
    f.active && Aligned(f) ==>
      && |f.dst| == AlignUp(|f.src|)
      && (forall b :: Issued(f) <= b < Count(f) ==> Untouched(f, b))
      && (forall b :: b in f.finished && b !in f.spoiled ==> Copied(f, b))
      && (Count(f) - 1 !in f.spoiled ==> TailClean(f))
      && f.nErrors >= 0 && (f.nErrors > 0 ==> f.spoiled != {})
  }

  ghost predicate SlotCounts(f: FileJob, b: Block)
  {
    b.inUse ==>
      && f.active && f.blockSize > 0
      && 0 <= b.jobno < Issued(f) && b.jobno !in f.finished
      && b.offset == Lo(f, b.jobno) && b.offset < |f.src| && b.nbytes == Min(f.blockSize, |f.src| - b.offset)
      && 0 < b.cbBytes
  }

  /** How far the bytes of a block have come, all of whose requests were completed in full. */
  ghost predicate Stage(c: Config, f: FileJob, b: Block)
  {
    && (b.status == 0 || b.status == EINPROGRESS)
    && match b.kind
       case READ => b.cbBytes == b.nbytes && Untouched(f, b.jobno) && (b.status == 0 ==> Loaded(f, b))
       case WRITE =>
         b.cbBytes == AlignUp(b.nbytes) && HashKept(c, f, b) &&
           (if b.status == 0 then Copied(f, b.jobno) else Loaded(f, b) && Padded(b))
       case READDST =>
         b.cbBytes == b.nbytes && HashKept(c, f, b) && c.readback && Copied(f, b.jobno) &&
           (b.status == 0 ==> Loaded(f, b))
       case FINISH => b.status == 0 && Copied(f, b.jobno)
  }

  ghost predicate Loaded(f: FileJob, b: Block) { Bytes(Buffer(b), 0, b.nbytes) == SrcPart(f, b.jobno) }

  /** The part of a write that is padding is zero. */
  ghost predicate Padded(b: Block) { IsZero(Bytes(Buffer(b), b.nbytes, b.cbBytes)) }

  ghost predicate HashKept(c: Config, f: FileJob, b: Block) { c.readback ==> b.srcHash == c.hash(SrcPart(f, b.jobno)) }

  ghost predicate SlotBytes(c: Config, f: FileJob, b: Block)
  {
    Aligned(f) ==>
      && (b.data.Some? ==> |b.data.value| == f.blockSize)
      && (b.inUse ==> b.cbBytes <= AlignUp(b.nbytes))
      && (b.inUse && b.jobno !in f.spoiled ==> Stage(c, f, b))
  }

  /**
    A block is at fault, while in a slot, exactly if a readback that is done brought other bytes than
    those whose hash was kept; and that hash is the source's if the source was read in full.
   */
  ghost predicate SlotFaults(c: Config, f: FileJob, b: Block)
  {
    b.inUse ==>
      && (b.jobno in f.faulty <==>
            b.kind == READDST && b.status == 0 && c.hash(Bytes(Buffer(b), 0, b.nbytes)) != b.srcHash)
      && (b.kind == READ || b.kind == READDST ==> b.cbBytes == b.nbytes)
      && (b.kind == READDST ==> c.readback)
      && (Aligned(f) && b.jobno !in f.unread ==>
            && (b.kind == READ && b.status == 0 ==> Loaded(f, b))
            && (b.kind == WRITE || b.kind == READDST ==> HashKept(c, f, b)))
  }

  ghost predicate SlotOk(c: Config, f: FileJob, b: Block)
  {
    SlotCounts(f, b) && SlotBytes(c, f, b) && SlotFaults(c, f, b)
  }

  ghost predicate FileOk(f: FileJob) { FileCounts(f) && FileBytes(f) }

  /** `g` is `f` after a step of block number `j`. */
  ghost predicate Compatible(f: FileJob, g: FileJob, j: int)
  {
    && g.src == f.src && g.blockSize == f.blockSize && g.active == f.active && g.ticket == f.ticket
    && Issued(f) <= Issued(g)
    && f.finished <= g.finished <= f.finished + {j}
    && f.spoiled <= g.spoiled <= f.spoiled + {j}
    && f.unread <= g.unread <= f.unread + {j} && f.faulty <= g.faulty <= f.faulty + {j}
    && (Aligned(f) ==> forall b :: 0 <= b < Count(f) && b != j ==> DstPart(g, b) == DstPart(f, b))
  }

  lemma CompatibleSlot(c: Config, f: FileJob, g: FileJob, j: int, b: Block)
    requires FileCounts(f) && Compatible(f, g, j) && SlotOk(c, f, b) && (b.inUse ==> b.jobno != j)
    ensures SlotOk(c, g, b)
  {
    hide DstPart, Count, Bytes, AlignUp;
    assert b.inUse && Aligned(f) ==> DstPart(g, b.jobno) == DstPart(f, b.jobno);
    assert b.inUse ==> SrcPart(g, b.jobno) == SrcPart(f, b.jobno);
  }

  ghost function InUse(c: Config, s: State, i: int): set<int>
  {
    set k | 0 <= k < |s.blocks| && Parent(c, k) == i && s.blocks[k].inUse
  }

  function Weight(f: FileJob, b: Block): nat { if b.data.Some? then f.blockSize else 0 }

  /** The memory behind the buffers of the slots below `n`. */
  function Held(c: Config, s: State, n: nat): nat
    requires Shape(c, s) && n <= |s.blocks|
  {
    if n == 0 then 0 else Held(c, s, n - 1) + Weight(FileOf(c, s, n - 1), s.blocks[n - 1])
  }

  ghost predicate Outstanding(s: State, k: int)
  {
    0 <= k < |s.blocks| && s.blocks[k].inUse && s.blocks[k].status == EINPROGRESS
  }

  ghost predicate NoRepeats(q: seq<int>) { forall i, j :: 0 <= i < j < |q| ==> q[i] != q[j] }

  /** Requests wait in the batch or are with the kernel, and each in one place only. */
  ghost predicate Pending(c: Config, s: State)
    requires Shape(c, s)
  {
    && (forall k :: k in s.batch ==> Outstanding(s, k) && k !in s.kernel)
    && NoRepeats(s.batch)
    && (forall k :: k in s.kernel ==> Outstanding(s, k))
    && (forall k :: 0 <= k < |s.blocks| && Outstanding(s, k) && s.blocks[k].jobno !in FileOf(c, s, k).spoiled ==>
          k in s.batch || k in s.kernel)
  }

  /** No block number is in two slots of one file. */
  ghost predicate Distinct(c: Config, s: State)
  {
    forall k, l :: 0 <= k < |s.blocks| && 0 <= l < |s.blocks| && k != l && s.blocks[k].inUse && s.blocks[l].inUse &&
        Parent(c, k) == Parent(c, l)
      ==> s.blocks[k].jobno != s.blocks[l].jobno
  }

  ghost predicate Working(s: State, t: int)
  {
    exists i :: 0 <= i < |s.files| && s.files[i].active && s.files[i].ticket == t
  }

  ghost predicate HandedOver(s: State, t: int) { exists i :: 0 <= i < |s.handed| && s.handed[i].ticket == t }

  /** Every accepted job is in one file slot, or was handed over once. */
  ghost predicate Tickets(s: State)
  {
    && (forall t :: 0 <= t < s.accepted ==> Working(s, t) || HandedOver(s, t))
    && (forall i :: 0 <= i < |s.files| && s.files[i].active ==>
          0 <= s.files[i].ticket < s.accepted && !HandedOver(s, s.files[i].ticket))
    && (forall i, j :: 0 <= i < j < |s.files| && s.files[i].active && s.files[j].active ==>
          s.files[i].ticket != s.files[j].ticket)
    && (forall i :: 0 <= i < |s.handed| ==> 0 <= s.handed[i].ticket < s.accepted)
    && (forall i, j :: 0 <= i < j < |s.handed| ==> s.handed[i].ticket != s.handed[j].ticket)
    && 0 <= s.accepted
  }

  /** A file as it is handed over: every block number is finished, and none is scheduled. */
  ghost predicate Delivered(f: FileJob)
  {
    && f.active && FileOk(f) && f.nScheduled == 0
    && forall b :: b in f.finished <==> 0 <= b < Count(f)
  }

  /** Slot `spare`, if there is one, holds a buffer although it is not in use. */
  ghost predicate Inv(c: Config, s: State, spare: int)
  {
    && Shape(c, s)
    && (forall i :: 0 <= i < |s.files| ==> FileOk(s.files[i]))
    && (forall i :: 0 <= i < |s.files| ==> |InUse(c, s, i)| == s.files[i].nScheduled)
    && (forall k :: 0 <= k < |s.blocks| ==> SlotOk(c, FileOf(c, s, k), s.blocks[k]))
    && (forall k :: 0 <= k < |s.blocks| ==> (s.blocks[k].data.Some? <==> s.blocks[k].inUse || k == spare))
    && Distinct(c, s) && Pending(c, s) && Tickets(s)
    && s.totalMem == Held(c, s, |s.blocks|)
    && (forall i :: 0 <= i < |s.handed| ==> Delivered(s.handed[i]))
  }

  /** The number that a step of slot `b` is about. */
  function Number(f: FileJob, b: Block): int { if b.inUse then b.jobno else Issued(f) }

  function Used(b: Block): int { if b.inUse then 1 else 0 }

  /** What a change of one slot and its file has to satisfy by itself. */
  ghost predicate Local(c: Config, f: FileJob, b: Block, f': FileJob, b': Block)
  {
    && FileOk(f') && SlotOk(c, f', b') && Compatible(f, f', Number(f, b))
    && f'.nScheduled - f.nScheduled == Used(b') - Used(b)
    && (b'.inUse ==> b'.jobno == Number(f, b))
  }

  ghost predicate Changed(c: Config, s: State, s': State, k: int)
  {
    && IsSlot(c, s, k) && IsSlot(c, s', k)
    && s'.files == s.files[Parent(c, k) := FileOf(c, s', k)]
    && s'.blocks == s.blocks[k := s'.blocks[k]]
    && Local(c, FileOf(c, s, k), s.blocks[k], FileOf(c, s', k), s'.blocks[k])
  }

  lemma ChangedFiles(c: Config, s: State, s': State, k: int, spare: int)
    requires Inv(c, s, spare) && Changed(c, s, s', k)
    ensures forall i :: 0 <= i < |s'.files| ==> FileOk(s'.files[i])
    ensures forall l :: 0 <= l < |s'.blocks| ==> SlotOk(c, FileOf(c, s', l), s'.blocks[l])
  {
    hide FileBytes, SlotBytes, Pending, Tickets, Held, InUse, Delivered, Shape;
    var f, f', b := FileOf(c, s, k), FileOf(c, s', k), s.blocks[k];
    ShapeAt(c, s, k);
    forall l | 0 <= l < |s'.blocks| ensures SlotOk(c, FileOf(c, s', l), s'.blocks[l]) {
      ShapeAt(c, s, l);
      if l != k && Parent(c, l) == Parent(c, k) {
        assert SlotOk(c, f, s.blocks[l]);
        assert s.blocks[l].inUse ==> s.blocks[l].jobno != Number(f, b);
        CompatibleSlot(c, f, f', Number(f, b), s.blocks[l]);
      }
    }
  }

  lemma ShapeAt(c: Config, s: State, k: int)
    requires Shape(c, s) && 0 <= k < |s.blocks|
    ensures 0 <= Parent(c, k) < |s.files|
  {
  }

  lemma ChangedUse(c: Config, s: State, s': State, k: int, i: int)
    requires Changed(c, s, s', k) && 0 <= i < |s.files| && |InUse(c, s, i)| == s.files[i].nScheduled
    ensures |InUse(c, s', i)| == s'.files[i].nScheduled
  {
    hide FileOk, SlotOk, Compatible, Shape;
    var u := InUse(c, s, i);
    if i != Parent(c, k) {
      assert InUse(c, s', i) == u;
    } else if s'.blocks[k].inUse {
      assert InUse(c, s', i) == u + {k};
    } else {
      assert InUse(c, s', i) == u - {k};
    }
  }

  lemma ChangedDistinct(c: Config, s: State, s': State, k: int)
    requires Changed(c, s, s', k) && Distinct(c, s)
    requires forall l :: 0 <= l < |s.blocks| ==> SlotOk(c, FileOf(c, s, l), s.blocks[l])
    ensures Distinct(c, s')
  {
    hide FileOk, SlotBytes, Compatible;
    forall l | 0 <= l < |s.blocks| && l != k && s.blocks[l].inUse && Parent(c, l) == Parent(c, k) && s'.blocks[k].inUse
      ensures s.blocks[l].jobno != s'.blocks[k].jobno
    {
      assert SlotOk(c, FileOf(c, s, l), s.blocks[l]);
    }
  }

  lemma {:induction false} HeldChanged(c: Config, s: State, s': State, k: int, n: nat)
    requires Changed(c, s, s', k) && n <= |s.blocks|
    ensures Held(c, s', n) == Held(c, s, n) +
            if k < n then Weight(FileOf(c, s, k), s'.blocks[k]) - Weight(FileOf(c, s, k), s.blocks[k]) else 0
  {
    hide FileOk, SlotOk;
    if n > 0 {
      HeldChanged(c, s, s', k, n - 1);
      ShapeAt(c, s, n - 1);
    }
  }

  lemma ChangedTickets(c: Config, s: State, s': State, k: int)
    requires Changed(c, s, s', k) && Tickets(s) && s'.handed == s.handed && s'.accepted == s.accepted
    ensures Tickets(s')
  {
    hide FileOk, SlotOk, Shape;
    ShapeAt(c, s, k);
    SameTickets(s, s');
  }

  lemma SameTickets(s: State, s': State)
    requires Tickets(s) && s'.handed == s.handed && s'.accepted == s.accepted && |s'.files| == |s.files|
    requires forall i :: 0 <= i < |s.files| ==>
            s'.files[i].active == s.files[i].active && s'.files[i].ticket == s.files[i].ticket
    ensures Tickets(s')
  {
    forall t ensures Working(s', t) == Working(s, t) && HandedOver(s', t) == HandedOver(s, t) {
      if Working(s, t) {
        var i :| 0 <= i < |s.files| && s.files[i].active && s.files[i].ticket == t;
        assert s'.files[i].ticket == t;
      }
      if Working(s', t) {
        var i :| 0 <= i < |s'.files| && s'.files[i].active && s'.files[i].ticket == t;
        assert s.files[i].ticket == t;
      }
    }
  }

  /** A legal change of one slot, with its own account of memory and pending requests, keeps everything. */
  lemma ChangeKeeps(c: Config, s: State, s': State, k: int, spare: int, spare': int)
    requires Inv(c, s, spare) && Changed(c, s, s', k) && Pending(c, s')
    requires spare in {-1, k} && spare' in {-1, k}
    requires s'.blocks[k].data.Some? <==> s'.blocks[k].inUse || k == spare'
    requires s'.totalMem == s.totalMem + Weight(FileOf(c, s, k), s'.blocks[k]) - Weight(FileOf(c, s, k), s.blocks[k])
    requires s'.handed == s.handed && s'.accepted == s.accepted
    ensures Inv(c, s', spare')
  {
    hide FileOk, SlotOk, Local, Held, Tickets, Delivered, InUse, Weight, Distinct, Pending;
    ChangedFiles(c, s, s', k, spare);
    forall i | 0 <= i < |s.files| ensures |InUse(c, s', i)| == s'.files[i].nScheduled {
      ChangedUse(c, s, s', k, i);
    }
    ChangedDistinct(c, s, s', k);
    HeldChanged(c, s, s', k, |s.blocks|);
    ChangedTickets(c, s, s', k);
  }

  lemma Empties(c: Config)
    requires Shape(c, Empty(c))
    ensures Inv(c, Empty(c), -1)
  {
    var s := Empty(c);
    HeldNothing(c, s, |s.blocks|);
    forall i | 0 <= i < |s.files| ensures |InUse(c, s, i)| == s.files[i].nScheduled {
      assert InUse(c, s, i) == {};
    }
  }

  lemma {:induction false} HeldNothing(c: Config, s: State, n: nat)
    requires Shape(c, s) && n <= |s.blocks| && forall k :: 0 <= k < |s.blocks| ==> s.blocks[k].data.None?
    ensures Held(c, s, n) == 0
  {
    if n > 0 { HeldNothing(c, s, n - 1); }
  }

  lemma EmptyShape(c: Config)
    ensures Shape(c, Empty(c))
  {
    forall k | 0 <= k < c.nFile * c.nPer ensures 0 <= Parent(c, k) < c.nFile {
      SlotParent(c, k);
    }
  }

  lemma SlotParent(c: Config, k: int)
    requires 0 <= k < c.nFile * c.nPer
    ensures 0 <= Parent(c, k) < c.nFile
  {
    var q := k / c.nPer;
    assert k == q * c.nPer + k % c.nPer;
    if q >= c.nFile { MulMonotone(c.nFile, q, c.nPer); }
    assert q >= 0;
  }
}
