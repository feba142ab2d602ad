/** Every elementary step of the transfer scheduler keeps its invariant. */
module SchedulerSteps {
  import opened Basics
  import opened FileJobs
  import opened SchedulerSpec
  import opened SchedulerInv

  // ---- bytes of one block ----

  lemma SpliceApart(d: seq<byte>, at: int, x: seq<byte>, lo: int, hi: int)
    requires 0 <= at && at + |x| <= |d| && 0 <= lo <= hi <= |d| && (hi <= at || at + |x| <= lo)
    ensures Bytes(Splice(d, at, x), lo, hi) == Bytes(d, lo, hi)
  {
    var r := Splice(d, at, x);
    assert forall i :: lo <= i < hi ==> r[i] == d[i];
  }

  lemma SpliceThere(d: seq<byte>, at: int, x: seq<byte>, n: nat)
    requires 0 <= at && at + |x| <= |d| && n <= |x|
    ensures Bytes(Splice(d, at, x), at, at + n) == x[..n]
  {
    var r := Splice(d, at, x);
    assert forall i :: at <= i < at + n ==> r[i] == x[i - at];
  }

  /** The part of the destination that a block may write, padding included. */
  lemma PartBounds(f: FileJob, j: int)
    requires Aligned(f) && 0 <= j < Count(f)
    ensures 0 <= Lo(f, j) < Hi(f, j) <= |f.src| && Hi(f, j) - Lo(f, j) <= f.blockSize
    ensures AlignUp(Hi(f, j) - Lo(f, j)) <= f.blockSize && Lo(f, j) + AlignUp(Hi(f, j) - Lo(f, j)) <= AlignUp(|f.src|)
  {
    hide AlignUp, BlockCount;
    BlockCountMeaning(|f.src|, f.blockSize, j);
    var n := Hi(f, j) - Lo(f, j);
    PaddingFits(f.blockSize, n);
    OffsetAligned(f.blockSize, j);
    PaddingAtEnd(Lo(f, j), n, |f.src|);
  }

  lemma OffsetAligned(blockSize: nat, j: nat)
    requires blockSize % DIRECT_IO_ALIGN == 0
    ensures blockSize * j % DIRECT_IO_ALIGN == 0
  {
    var q := blockSize / DIRECT_IO_ALIGN;
    assert blockSize * j == DIRECT_IO_ALIGN * (q * j);
  }

  lemma PaddingAtEnd(lo: nat, n: nat, size: nat)
    requires lo % DIRECT_IO_ALIGN == 0 && lo + n <= size
    ensures lo + AlignUp(n) <= AlignUp(size)
  {
  }

  /** Writing inside one block's padded range leaves every other block's part alone. */
  lemma OtherParts(f: FileJob, j: int, x: seq<byte>, b: int)
    requires Aligned(f) && |f.dst| == AlignUp(|f.src|) && 0 <= j < Count(f) && 0 <= b < Count(f) && b != j
    requires |x| <= AlignUp(Hi(f, j) - Lo(f, j))
    ensures DstPart(f.(dst := Splice(f.dst, Lo(f, j), x)), b) == DstPart(f, b)
  {
    hide AlignUp, Count, Splice, Lo, Hi, Aligned, Bytes;
    PartBounds(f, j);
    PartBounds(f, b);
    PartsApart(f, b, j);
    AlignUpLeast(|f.src|);
    SameBounds(f, f.(dst := Splice(f.dst, Lo(f, j), x)), b);
    SpliceApart(f.dst, Lo(f, j), x, Lo(f, b), Hi(f, b));
  }

  lemma PartsApart(f: FileJob, b: int, j: int)
    requires Aligned(f) && 0 <= j < Count(f) && 0 <= b < Count(f) && b != j
    ensures Hi(f, b) <= Lo(f, j) || Lo(f, j) + f.blockSize <= Lo(f, b)
  {
    PartBounds(f, b);
    if b < j { BlocksApart(f.blockSize, b, j); } else { BlocksApart(f.blockSize, j, b); }
  }

  lemma OwnPart(f: FileJob, j: int, x: seq<byte>)
    requires Aligned(f) && |f.dst| == AlignUp(|f.src|) && 0 <= j < Count(f)
    requires Hi(f, j) - Lo(f, j) <= |x| <= AlignUp(Hi(f, j) - Lo(f, j))
    ensures DstPart(f.(dst := Splice(f.dst, Lo(f, j), x)), j) == Bytes(x, 0, Hi(f, j) - Lo(f, j))
  {
    hide AlignUp, Count, Splice, Lo, Hi, Aligned, Bytes;
    PartBounds(f, j);
    AlignUpLeast(|f.src|);
    SameBounds(f, f.(dst := Splice(f.dst, Lo(f, j), x)), j);
    SpliceThere(f.dst, Lo(f, j), x, Hi(f, j) - Lo(f, j));
  }

  lemma SameBounds(f: FileJob, g: FileJob, b: int)
    requires g.src == f.src && g.blockSize == f.blockSize
    ensures Lo(g, b) == Lo(f, b) && Hi(g, b) == Hi(f, b) && SrcPart(g, b) == SrcPart(f, b)
    ensures Count(g) == Count(f)
    ensures g.dst == f.dst ==> DstPart(g, b) == DstPart(f, b)
  {
  }

  lemma SameFile(f: FileJob, g: FileJob)
    requires g.src == f.src && g.blockSize == f.blockSize && g.dst == f.dst
    ensures Count(g) == Count(f)
    ensures forall j :: DstPart(g, j) == DstPart(f, j) && SrcPart(g, j) == SrcPart(f, j) && Lo(g, j) == Lo(f, j)
    ensures forall j :: Untouched(g, j) == Untouched(f, j) && Copied(g, j) == Copied(f, j)
    ensures TailClean(g) == TailClean(f)
  {
    SameBounds(f, g, 0);
    forall j ensures DstPart(g, j) == DstPart(f, j) && SrcPart(g, j) == SrcPart(f, j) && Lo(g, j) == Lo(f, j) {
      SameBounds(f, g, j);
    }
  }

  lemma StartsInside(f: FileJob, j: nat)
    requires f.blockSize > 0
    ensures Lo(f, j) == f.blockSize * j && (j < Count(f) <==> Lo(f, j) < |f.src|)
  {
    BlockCountMeaning(|f.src|, f.blockSize, j);
  }

  // ---- the steps of one slot, as far as the slot and its file are concerned ----

  lemma StartLocal(c: Config, f: FileJob, b: Block)
    requires FileOk(f) && SlotOk(c, f, b) && f.active && f.blockSize > 0 && !b.inUse
    requires f.blockSize * Issued(f) < |f.src|
    ensures Local(c, f, b, f.(nScheduled := f.nScheduled + 1), StartedBlock(f, b.data))
  {
    hide AlignUp, BlockCount, Bytes, Lo, Hi, DstPart, SrcPart, Count;
    var g := f.(nScheduled := f.nScheduled + 1);
    StartsInside(f, Issued(f));
    SameFile(f, g);
    assert Aligned(f) ==> Untouched(f, Issued(f));
    var b' := StartedBlock(f, b.data);
    AlignUpLeast(b'.nbytes);
    assert SlotBytes(c, g, b');
  }

  lemma BufferLocal(c: Config, f: FileJob, b: Block, data: Option<seq<byte>>)
    requires FileOk(f) && SlotOk(c, f, b) && !b.inUse && (data.Some? ==> |data.value| == f.blockSize)
    ensures Local(c, f, b, f, b.(data := data)) && Local(c, f, b, f, Idle(data))
  {
  }

  /** The destination is right for a block that is done and not spoiled. */
  lemma DoneIsCopied(c: Config, f: FileJob, b: Block)
    requires SlotOk(c, f, b) && b.inUse && b.status != EINPROGRESS
    requires (b.status == 0 ==> b.kind == READDST || b.kind == FINISH)
    ensures Aligned(f) && b.jobno !in f.spoiled ==> Copied(f, b.jobno) && Mismatch(c, b) == 0
  {
  }

  /** A block that is done is counted as an error if it is at fault, or as it is refused. */
  lemma ReleaseLocal(c: Config, f: FileJob, b: Block, errors: int, refused: bool)
    requires FileOk(f) && SlotOk(c, f, b) && b.inUse && f.nScheduled > 0
    requires errors == (if refused || b.jobno in f.faulty then 1 else 0) && (refused ==> b.jobno !in f.faulty)
    requires Aligned(f) && b.jobno !in f.spoiled ==> Copied(f, b.jobno) && errors == 0
    ensures Local(c, f, b, ReleasedFile(f, b, errors, refused), Idle(b.data))
  {
    ReleasedOk(c, f, b, errors, refused);
    ReleasedCompatible(c, f, b, errors, refused);
    IdleSlot(c, f, b, ReleasedFile(f, b, errors, refused));
    hide FileOk, SlotOk, Compatible;
  }

  lemma ReleasedCompatible(c: Config, f: FileJob, b: Block, errors: int, refused: bool)
    ensures Compatible(f, ReleasedFile(f, b, errors, refused), b.jobno)
  {
    hide Count, Bytes, Lo, Hi;
    var g := ReleasedFile(f, b, errors, refused);
    forall j ensures DstPart(g, j) == DstPart(f, j) { SameBounds(f, g, j); }
    hide DstPart;
  }

  lemma IdleSlot(c: Config, f: FileJob, b: Block, g: FileJob)
    requires SlotOk(c, f, b) && g.src == f.src && g.blockSize == f.blockSize
    ensures SlotOk(c, g, Idle(b.data))
  {
    hide Stage, Count, Lo;
  }

  lemma ReleasedOk(c: Config, f: FileJob, b: Block, errors: int, refused: bool)
    requires FileOk(f) && SlotOk(c, f, b) && b.inUse && f.nScheduled > 0
    requires errors == (if refused || b.jobno in f.faulty then 1 else 0) && (refused ==> b.jobno !in f.faulty)
    requires Aligned(f) && b.jobno !in f.spoiled ==> Copied(f, b.jobno) && errors == 0
    ensures FileOk(ReleasedFile(f, b, errors, refused))
  {
    hide AlignUp, BlockCount, Bytes, Lo, Hi, DstPart, SrcPart, Count, SlotBytes, SlotFaults, TailClean, Untouched,
        Copied;
    var g := ReleasedFile(f, b, errors, refused);
    SameFile(f, g);
    FaultCounted(f, g, b.jobno);
  }

  lemma FaultCounted(f: FileJob, g: FileJob, j: int)
    requires j !in f.finished && g.finished == f.finished + {j} && f.faulty <= g.faulty <= f.faulty + {j}
    ensures |g.faulty * g.finished| == |f.faulty * f.finished| + if j in g.faulty then 1 else 0
  {
    assert g.faulty * g.finished == f.faulty * f.finished + if j in g.faulty then {j} else {};
  }

  lemma SparseLocal(c: Config, f: FileJob, b: Block)
    requires FileOk(f) && SlotOk(c, f, b) && b.inUse && b.status == 0 && b.kind == READ
    requires IsZero(Bytes(Buffer(b), 0, b.nbytes))
    ensures Local(c, f, b, f, b.(kind := FINISH))
  {
    if Aligned(f) && b.jobno !in f.spoiled { ZerosAreCopied(c, f, b); }
    hide FileOk;
    FinishedSlot(c, f, b);
    SlotMoves(c, f, b, b.(kind := FINISH));
  }

  /** A slot whose block is in the destination may be finished. */
  lemma FinishedSlot(c: Config, f: FileJob, b: Block)
    requires SlotOk(c, f, b) && b.inUse && b.status == 0 && b.kind in {READ, WRITE}
    requires Aligned(f) && b.jobno !in f.spoiled ==> Copied(f, b.jobno)
    ensures SlotOk(c, f, b.(kind := FINISH))
  {
    hide Copied, Loaded, HashKept, Untouched, AlignUp, Bytes, Lo, Count;
  }

  /** Only the slot's own record moves on. */
  lemma SlotMoves(c: Config, f: FileJob, b: Block, b': Block)
    requires FileOk(f) && SlotOk(c, f, b') && b.inUse && b'.inUse && b'.jobno == b.jobno
    ensures Local(c, f, b, f, b')
  {
    hide FileOk, SlotOk, DstPart, Count;
  }

  lemma ZerosAreCopied(c: Config, f: FileJob, b: Block)
    requires FileOk(f) && SlotOk(c, f, b) && b.inUse && b.status == 0 && b.kind == READ && Aligned(f)
    requires b.jobno !in f.spoiled && IsZero(Bytes(Buffer(b), 0, b.nbytes))
    ensures Copied(f, b.jobno)
  {
    hide AlignUp, BlockCount, Bytes, FileBytes;
    var d, s := DstPart(f, b.jobno), SrcPart(f, b.jobno);
    PartLengths(f, b.jobno);
    assert forall i :: 0 <= i < |d| ==> d[i] == s[i];
  }

  lemma PartLengths(f: FileJob, j: int)
    requires FileOk(f) && f.active && Aligned(f) && 0 <= j < Count(f)
    ensures |DstPart(f, j)| == |SrcPart(f, j)| == Hi(f, j) - Lo(f, j)
  {
    hide BlockCount;
    PartBounds(f, j);
  }

  lemma WritingLocal(c: Config, f: FileJob, b: Block)
    requires FileOk(f) && SlotOk(c, f, b) && b.inUse && b.status == 0 && b.kind == READ && b.data.Some?
    ensures Local(c, f, b, f, Writing(c, b))
  {
    hide AlignUp, BlockCount, FileBytes, FileCounts, Splice, Bytes, DstPart, Untouched, Copied;
    AlignUpLeast(b.nbytes);
    if Aligned(f) {
      assert 0 <= b.jobno < Count(f) by { InsideSource(f, b); }
      PartBounds(f, b.jobno);
      var n := b.nbytes;
      SpliceApart(Buffer(b), n, Zeros(AlignUp(n) - n), 0, n);
      assert Bytes(Buffer(Writing(c, b)), 0, n) == Bytes(Buffer(b), 0, n);
      SpliceThere(Buffer(b), n, Zeros(AlignUp(n) - n), AlignUp(n) - n);
      assert Padded(Writing(c, b));
    }
  }

  lemma WrittenLocal(c: Config, f: FileJob, b: Block)
    requires FileOk(f) && SlotOk(c, f, b) && b.inUse && b.status == 0 && b.kind == WRITE
    ensures Local(c, f, b, f, b.(kind := FINISH))
  {
    hide FileOk, Count;
    assert Aligned(f) && b.jobno !in f.spoiled ==> Copied(f, b.jobno);
    FinishedSlot(c, f, b);
    SlotMoves(c, f, b, b.(kind := FINISH));
  }

  lemma ReadingBackLocal(c: Config, f: FileJob, b: Block)
    requires FileOk(f) && SlotOk(c, f, b) && b.inUse && b.status == 0 && b.kind == WRITE && b.data.Some? && c.readback
    ensures Local(c, f, b, f, ReadingBack(b))
  {
    hide BlockCount, FileBytes, Bytes, Splice;
  }

  lemma SpoilLocal(c: Config, f: FileJob, b: Block)
    requires FileOk(f) && SlotOk(c, f, b) && b.inUse
    ensures Local(c, f, b, f.(spoiled := f.spoiled + {b.jobno}), b)
  {
    hide BlockCount, Bytes, AlignUp, Lo, Hi, DstPart, SrcPart, Count;
    var g := f.(spoiled := f.spoiled + {b.jobno});
    SameFile(f, g);
  }

  function AfterFile(c: Config, f: FileJob, b: Block, res: int, other: seq<byte>): FileJob
  {
    var full := res == b.cbBytes;
    f.(dst := DestinationAfter(f, b, full, other), spoiled := f.spoiled + if full then {} else {b.jobno},
       unread := f.unread + if b.kind == READ && !full then {b.jobno} else {},
       faulty := f.faulty + if BringsOther(c, f, b, res, other) then {b.jobno} else {})
  }

  function AfterBlock(f: FileJob, b: Block, res: int, other: seq<byte>): Block
  {
    b.(status := StatusOf(res, b.cbBytes), data := Some(BufferAfter(f, b, res == b.cbBytes, other)))
  }

  ghost predicate InKernel(c: Config, f: FileJob, b: Block)
  {
    FileOk(f) && SlotOk(c, f, b) && b.inUse && b.status == EINPROGRESS && b.data.Some?
  }

  lemma ReadLength(f: FileJob, b: Block, full: bool, other: seq<byte>)
    requires b.data.Some? && 0 <= b.nbytes <= |b.data.value|
    ensures |BufferAfter(f, b, full, other)| == |b.data.value|
  {
  }

  /** A read in full brings the bytes of the source, or of the destination as it is. */
  lemma FullRead(c: Config, f: FileJob, b: Block, other: seq<byte>)
    requires InKernel(c, f, b) && Aligned(f) && b.kind in {READ, READDST}
    ensures Bytes(BufferAfter(f, b, true, other), 0, b.nbytes) ==
            if b.kind == READ then SrcPart(f, b.jobno) else DstPart(f, b.jobno)
  {
    hide AlignUp, Count, Splice, Lo;
    InsideSource(f, b);
    PartBounds(f, b.jobno);
    AlignUpLeast(|f.src|);
    hide Hi;
    var part := if b.kind == READ then SrcPart(f, b.jobno) else DstPart(f, b.jobno);
    SpliceThere(Buffer(b), 0, part, b.nbytes);
    assert part[..b.nbytes] == part;
  }

  /** What the report of a request says about fault. */
  lemma FaultsAfter(c: Config, f: FileJob, b: Block, res: int, other: seq<byte>)
    requires InKernel(c, f, b)
    ensures SlotFaults(c, AfterFile(c, f, b, res, other), AfterBlock(f, b, res, other))
  {
    hide AlignUp, Bytes, Lo, Hi, DstPart, Count, BufferAfter, DestinationAfter, FileBytes, Stage;
    if Aligned(f) && b.kind == READ && res == b.cbBytes { FullRead(c, f, b, other); }
    hide SrcPart;
    SameSource(f, AfterFile(c, f, b, res, other), b.jobno);
  }

  /** The counters and the history of numbers after a report. */
  lemma CountsAfter(c: Config, f: FileJob, b: Block, res: int, other: seq<byte>)
    requires InKernel(c, f, b)
    ensures FileCounts(AfterFile(c, f, b, res, other))
    ensures SlotCounts(AfterFile(c, f, b, res, other), AfterBlock(f, b, res, other))
  {
    hide AlignUp, Count, BufferAfter, DestinationAfter, FileBytes, Stage, BringsOther, SlotBytes, SlotFaults;
    var g := AfterFile(c, f, b, res, other);
    SameCount(f, g);
    FaultsUncounted(f, g, b.jobno);
    SlotCountsAfter(f, g, b, AfterBlock(f, b, res, other));
    hide SlotCounts;
  }

  lemma FaultsUncounted(f: FileJob, g: FileJob, j: int)
    requires j !in f.finished && g.finished == f.finished && f.faulty <= g.faulty <= f.faulty + {j}
    ensures g.faulty * g.finished == f.faulty * f.finished
  {
  }

  lemma SlotCountsAfter(f: FileJob, g: FileJob, b: Block, b': Block)
    requires SlotCounts(f, b) && b' == b.(status := b'.status, data := b'.data)
    requires g.src == f.src && g.blockSize == f.blockSize && g.active == f.active && g.finished == f.finished
    requires Issued(g) == Issued(f)
    ensures SlotCounts(g, b')
  {
  }

  lemma SameCount(f: FileJob, g: FileJob)
    requires g.src == f.src && g.blockSize == f.blockSize
    ensures Count(g) == Count(f)
  {
  }

  lemma SameSource(f: FileJob, g: FileJob, j: int)
    requires g.src == f.src && g.blockSize == f.blockSize
    ensures SrcPart(g, j) == SrcPart(f, j)
  {
  }

  lemma ReadFileBytes(c: Config, f: FileJob, b: Block, res: int, other: seq<byte>)
    requires InKernel(c, f, b) && b.kind != WRITE
    ensures FileBytes(AfterFile(c, f, b, res, other)) && AfterFile(c, f, b, res, other).dst == f.dst
  {
    hide AlignUp, Bytes, Lo, Hi, DstPart, SrcPart, Count, SlotCounts, SlotBytes, SlotFaults, BringsOther, TailClean,
        Untouched, Copied;
    SameFile(f, AfterFile(c, f, b, res, other));
    SameCount(f, AfterFile(c, f, b, res, other));
  }

  lemma ReadSlotBytes(c: Config, f: FileJob, b: Block, res: int, other: seq<byte>)
    requires InKernel(c, f, b) && b.kind != WRITE
    ensures SlotBytes(c, AfterFile(c, f, b, res, other), AfterBlock(f, b, res, other))
  {
    hide AlignUp, Bytes, Lo, Hi, DstPart, SrcPart, Count, BufferAfter, SlotFaults, FileBytes, FileCounts, BringsOther;
    var g, b' := AfterFile(c, f, b, res, other), AfterBlock(f, b, res, other);
    SameFile(f, g);
    if Aligned(f) {
      ReadLength(f, b, res == b.cbBytes, other);
      if b.jobno !in g.spoiled {
        ReadLoads(c, f, b, res, other);
        assert Stage(c, g, b');
      }
    }
  }

  lemma ReadLocal(c: Config, f: FileJob, b: Block, res: int, other: seq<byte>)
    requires InKernel(c, f, b) && b.kind != WRITE
    ensures Local(c, f, b, AfterFile(c, f, b, res, other), AfterBlock(f, b, res, other))
  {
    var g, b' := AfterFile(c, f, b, res, other), AfterBlock(f, b, res, other);
    FaultsAfter(c, f, b, res, other);
    CountsAfter(c, f, b, res, other);
    ReadFileBytes(c, f, b, res, other);
    ReadSlotBytes(c, f, b, res, other);
    hide Bytes, DstPart, SrcPart, Count, BufferAfter, SlotFaults, SlotBytes, FileBytes, FileCounts, SlotCounts,
        BringsOther;
    SameFile(f, g);
  }

  lemma ReadLoads(c: Config, f: FileJob, b: Block, res: int, other: seq<byte>)
    requires InKernel(c, f, b) && Aligned(f) && b.kind != WRITE && res == b.cbBytes && b.jobno !in f.spoiled
    ensures b.kind != FINISH && StatusOf(res, b.cbBytes) == 0 && Loaded(f, AfterBlock(f, b, res, other))
  {
    hide AlignUp, Count, Bytes, Splice, Lo, FileBytes;
    InsideSource(f, b);
    hide Hi;
    var part := SrcPart(f, b.jobno);
    assert b.kind == READDST ==> DstPart(f, b.jobno) == part;
    SpliceThere(Buffer(b), 0, part, b.nbytes);
    assert part[..b.nbytes] == part;
  }

  lemma InsideSource(f: FileJob, b: Block)
    requires SlotCounts(f, b) && FileCounts(f) && b.inUse && Aligned(f)
    ensures 0 <= b.jobno < Count(f) && 0 < b.nbytes <= f.blockSize
    ensures b.offset == Lo(f, b.jobno) && b.offset + b.nbytes == Hi(f, b.jobno) && |SrcPart(f, b.jobno)| == b.nbytes
  {
    hide Count;
    PartBounds(f, b.jobno);
  }

  /** What a write puts into the destination. */
  function Written(b: Block, full: bool, other: seq<byte>): seq<byte>
  {
    if full then Bytes(Buffer(b), 0, b.cbBytes) else if |other| == b.cbBytes then other else []
  }

  lemma WriteSplices(c: Config, f: FileJob, b: Block, full: bool, other: seq<byte>)
    requires InKernel(c, f, b) && Aligned(f) && b.kind == WRITE
    ensures |Written(b, full, other)| <= AlignUp(b.nbytes)
    ensures DestinationAfter(f, b, full, other) == Splice(f.dst, b.offset, Written(b, full, other))
    ensures |DestinationAfter(f, b, full, other)| == |f.dst|
  {
    hide AlignUp, Count, Lo, Hi, Stage;
    InsideSource(f, b);
    PartBounds(f, b.jobno);
    AlignUpLeast(|f.src|);
    AlignUpLeast(b.nbytes);
    assert 0 <= b.offset <= |f.dst| && Splice(f.dst, b.offset, []) == f.dst;
  }

  lemma WriteParts(c: Config, f: FileJob, b: Block, res: int, other: seq<byte>)
    requires InKernel(c, f, b) && Aligned(f) && b.kind == WRITE
    ensures var g := AfterFile(c, f, b, res, other);
            forall j :: 0 <= j < Count(f) && j != b.jobno ==> DstPart(g, j) == DstPart(f, j)
  {
    hide AlignUp, Count, Lo, Hi, Bytes, Splice, SlotBytes, DstPart, Written, DestinationAfter;
    var full := res == b.cbBytes;
    WriteSplices(c, f, b, full, other);
    InsideSource(f, b);
    var x := Written(b, full, other);
    var h := f.(dst := Splice(f.dst, Lo(f, b.jobno), x));
    forall j | 0 <= j < Count(f) && j != b.jobno ensures DstPart(AfterFile(c, f, b, res, other), j) == DstPart(f, j) {
      OtherParts(f, b.jobno, x, j);
      SameBounds(h, AfterFile(c, f, b, res, other), j);
    }
  }

  lemma WriteCopies(c: Config, f: FileJob, b: Block, res: int, other: seq<byte>)
    requires InKernel(c, f, b) && Aligned(f) && b.kind == WRITE && res == b.cbBytes && b.jobno !in f.spoiled
    ensures Copied(AfterFile(c, f, b, res, other), b.jobno) && StatusOf(res, b.cbBytes) == 0
  {
    hide Count, Lo, Hi, Splice, DstPart, DestinationAfter, AlignUp;
    WriteSplices(c, f, b, true, other);
    InsideSource(f, b);
    PartBounds(f, b.jobno);
    AlignUpLeast(b.nbytes);
    var x := Written(b, true, other);
    var h := f.(dst := Splice(f.dst, Lo(f, b.jobno), x));
    OwnPart(f, b.jobno, x);
    assert Bytes(x, 0, b.nbytes) == Bytes(Buffer(b), 0, b.nbytes);
    SameBounds(h, AfterFile(c, f, b, res, other), b.jobno);
    SameBounds(f, h, b.jobno);
  }

  /** The last block's padding ends where the destination ends; other blocks do not reach it. */
  lemma WriteTail(c: Config, f: FileJob, b: Block, res: int, other: seq<byte>)
    requires InKernel(c, f, b) && Aligned(f) && b.kind == WRITE
    requires Count(f) - 1 !in AfterFile(c, f, b, res, other).spoiled
    ensures TailClean(AfterFile(c, f, b, res, other))
  {
    hide Count, Lo, Hi, DestinationAfter, AlignUp, Bytes, Splice;
    var full := res == b.cbBytes;
    WriteSplices(c, f, b, full, other);
    InsideSource(f, b);
    PartBounds(f, b.jobno);
    AlignUpLeast(|f.src|);
    var x := Written(b, full, other);
    if b.jobno == Count(f) - 1 {
      LastBlockEnds(f);
      assert Padded(b) && full;
      TailWritten(f.dst, b.offset, Buffer(b), b.nbytes, b.cbBytes);
    } else {
      BeforeLast(f, b.jobno);
      SpliceApart(f.dst, b.offset, x, |f.src|, |f.dst|);
    }
  }

  lemma TailWritten(d: seq<byte>, at: nat, buffer: seq<byte>, n: nat, m: nat)
    requires n <= m <= |buffer| && at + m == |d| && IsZero(Bytes(buffer, n, m))
    ensures var d' := Splice(d, at, Bytes(buffer, 0, m)); IsZero(Bytes(d', at + n, |d'|))
  {
    var d' := Splice(d, at, Bytes(buffer, 0, m));
    var z := Bytes(buffer, n, m);
    forall i | 0 <= i < m - n ensures Bytes(d', at + n, |d'|)[i] == z[i] {
      assert d'[at + n + i] == buffer[n + i];
    }
  }

  lemma LastBlockEnds(f: FileJob)
    requires Aligned(f) && Count(f) > 0
    ensures Hi(f, Count(f) - 1) == |f.src|
    ensures Lo(f, Count(f) - 1) + AlignUp(Hi(f, Count(f) - 1) - Lo(f, Count(f) - 1)) == AlignUp(|f.src|)
  {
    hide AlignUp, BlockCount;
    var j := Count(f) - 1;
    BlockCountMeaning(|f.src|, f.blockSize, j);
    BlockCountMeaning(|f.src|, f.blockSize, j + 1);
    assert f.blockSize * (j + 1) == f.blockSize * j + f.blockSize;
    OffsetAligned(f.blockSize, j);
    PaddingShifts(Lo(f, j), |f.src| - Lo(f, j));
  }

  lemma PaddingShifts(lo: nat, n: nat)
    requires lo % DIRECT_IO_ALIGN == 0
    ensures lo + AlignUp(n) == AlignUp(lo + n)
  {
  }

  lemma BeforeLast(f: FileJob, j: nat)
    requires Aligned(f) && j < Count(f) - 1
    ensures Lo(f, j) + AlignUp(Hi(f, j) - Lo(f, j)) <= |f.src|
  {
    hide AlignUp, Count;
    PartBounds(f, j);
    PartBounds(f, Count(f) - 1);
    BlocksApart(f.blockSize, j, Count(f) - 1);
  }

  lemma WriteFileBytes(c: Config, f: FileJob, b: Block, res: int, other: seq<byte>)
    requires InKernel(c, f, b) && Aligned(f) && b.kind == WRITE
    ensures FileBytes(AfterFile(c, f, b, res, other))
  {
    hide Count, Lo, Hi, Splice, DstPart, SrcPart, DestinationAfter, AlignUp, SlotBytes;
    var g := AfterFile(c, f, b, res, other);
    WriteSplices(c, f, b, res == b.cbBytes, other);
    WriteParts(c, f, b, res, other);
    SameBounds(f, g, 0);
    if Count(f) - 1 !in g.spoiled { WriteTail(c, f, b, res, other); }
    hide TailClean;
    forall j | Issued(f) <= j < Count(f) ensures Untouched(g, j) {
      assert Untouched(f, j);
    }
    forall j | j in f.finished && j !in g.spoiled ensures Copied(g, j) {
      assert Copied(f, j);
      SameBounds(f, g, j);
    }
  }

  lemma WriteSlotBytes(c: Config, f: FileJob, b: Block, res: int, other: seq<byte>)
    requires InKernel(c, f, b) && b.kind == WRITE
    ensures SlotBytes(c, AfterFile(c, f, b, res, other), AfterBlock(f, b, res, other))
  {
    hide Count, Lo, Hi, Splice, DstPart, SrcPart, DestinationAfter, AlignUp, FileBytes, Bytes, SlotFaults, FileCounts,
        BringsOther;
    var g, b' := AfterFile(c, f, b, res, other), AfterBlock(f, b, res, other);
    SameBounds(f, g, b.jobno);
    if Aligned(f) && b.jobno !in g.spoiled {
      WriteCopies(c, f, b, res, other);
      assert Stage(c, g, b');
    }
  }

  lemma WriteLocal(c: Config, f: FileJob, b: Block, res: int, other: seq<byte>)
    requires InKernel(c, f, b) && b.kind == WRITE
    ensures Local(c, f, b, AfterFile(c, f, b, res, other), AfterBlock(f, b, res, other))
  {
    var g, b' := AfterFile(c, f, b, res, other), AfterBlock(f, b, res, other);
    FaultsAfter(c, f, b, res, other);
    CountsAfter(c, f, b, res, other);
    WriteSlotBytes(c, f, b, res, other);
    if Aligned(f) {
      WriteFileBytes(c, f, b, res, other);
      WriteParts(c, f, b, res, other);
    } else {
      assert FileBytes(g) by { NotAligned(g); }
    }
    hide Bytes, DstPart, Count, BufferAfter, SlotFaults, SlotBytes, FileBytes, FileCounts, SlotCounts, BringsOther,
        DestinationAfter;
    SameBounds(f, g, 0);
  }

  lemma NotAligned(f: FileJob)
    requires !Aligned(f)
    ensures FileBytes(f)
  {
  }

  lemma CompleteLocal(c: Config, f: FileJob, b: Block, res: int, other: seq<byte>)
    requires InKernel(c, f, b)
    ensures Local(c, f, b, AfterFile(c, f, b, res, other), AfterBlock(f, b, res, other))
  {
    hide Local, AfterFile, AfterBlock, InKernel;
    if b.kind == WRITE { WriteLocal(c, f, b, res, other); } else { ReadLocal(c, f, b, res, other); }
  }
}
