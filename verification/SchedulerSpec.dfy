/**
  The transfer scheduler as a function from states to states, one function for each routine.

  A file record carries the bytes behind its two descriptors.  The kernel moves the bytes of
  a request when it reports the request, and every choice of the environment (whether memory
  is available, how many requests are taken, what a request returns) is an argument.
 */
module SchedulerSpec {
  import opened Basics
  import opened FileJobs

  const EIO := 5
  const EINPROGRESS := 115

  /** What the buffer allocator returns; the contents of a new buffer are arbitrary. */
  type Memory = Option<int -> byte>

  datatype Config = Config(nFile: nat, nPer: nat, sparse: bool, readback: bool, hash: seq<byte> -> int)

  /**
    A file slot.  `ticket` numbers the accepted jobs; the sets are the history of its block numbers:
    those that are done; those with a request that was not completed in full; those whose source was
    not read in full; and those that a refused batch gave up or whose readback brought other bytes.
   */
  datatype FileJob = FileJob(
    active: bool, ticket: int, src: seq<byte>, dst: seq<byte>, blockSize: nat,
    nScheduled: int, nFinished: int, nErrors: int, finished: set<int>, spoiled: set<int>, unread: set<int>,
    faulty: set<int>)

  datatype RW = READ | WRITE | READDST | FINISH

  /** A block slot; `cbBytes` is the length in its prepared request. */
  datatype Block = Block(
    inUse: bool, jobno: int, kind: RW, status: int, offset: int, nbytes: int, cbBytes: int, data: Option<seq<byte>>,
        srcHash: int)

  datatype State = State(
    files: seq<FileJob>, blocks: seq<Block>, batch: seq<int>, kernel: set<int>, handed: seq<FileJob>, accepted: int,
        totalMem: int)

  function Zeros(n: int): (r: seq<byte>)
    ensures n >= 0 ==> |r| == n
  {
    if n <= 0 then [] else seq(n, _ => 0)
  }

  /** The bytes from `lo` to `hi`; nothing if they are not all there. */
  function Bytes(s: seq<byte>, lo: int, hi: int): (r: seq<byte>)
    ensures 0 <= lo <= hi <= |s| ==> r == s[lo..hi]
  {
    if 0 <= lo <= hi <= |s| then s[lo..hi] else []
  }

  /** `d` with `x` written at `at`; a file grows as needed. */
  function Splice(d: seq<byte>, at: int, x: seq<byte>): (r: seq<byte>)
    ensures 0 <= at && at + |x| <= |d| ==> |r| == |d|
  {
    if at < 0 then d
    else if at > |d| then d + Zeros(at - |d|) + x
    else d[..at] + x + (if at + |x| <= |d| then d[at + |x|..] else [])
  }

  function Idle(data: Option<seq<byte>>): Block { Block(false, 0, READ, 0, 0, 0, 0, data, 0) }

  function NoFile(): FileJob { FileJob(false, 0, [], [], 0, 0, 0, 0, {}, {}, {}, {}) }

  /** The file slot that a block slot belongs to. */
  function Parent(c: Config, k: int): int
  {
    if c.nPer == 0 then 0 else k / c.nPer
  }

  function Count(f: FileJob): nat { BlockCount(|f.src|, f.blockSize) }

  function Issued(f: FileJob): int { f.nScheduled + f.nFinished }

  predicate Shape(c: Config, s: State)
  {
    && |s.files| == c.nFile && |s.blocks| == c.nFile * c.nPer
    && forall k :: 0 <= k < |s.blocks| ==> 0 <= Parent(c, k) < |s.files|
  }

  predicate IsSlot(c: Config, s: State, k: int)
  {
    Shape(c, s) && 0 <= k < |s.blocks|
  }

  function FileOf(c: Config, s: State, k: int): FileJob
    requires IsSlot(c, s, k)
  {
    s.files[Parent(c, k)]
  }

  /** `s` with slot `k` and its file replaced. */
  function Touch(c: Config, s: State, k: int, f: FileJob, b: Block): (r: State)
    requires IsSlot(c, s, k)
    ensures Shape(c, r)
  {
    s.(files := s.files[Parent(c, k) := f], blocks := s.blocks[k := b])
  }

  /** `schedulerClearBlockCopyJob`. */
  function ClearBlock(c: Config, s: State, k: int, nofree: bool): (r: State)
    requires IsSlot(c, s, k)
    ensures Shape(c, r)
  {
    var f, b := FileOf(c, s, k), s.blocks[k];
    if nofree then Touch(c, s, k, f, Idle(b.data))
    else Touch(c, s, k, f, Idle(None)).(totalMem := s.totalMem - (if b.data.Some? then f.blockSize else 0))
  }

  /** `schedulerScheduleBlockCopyJob`; `memory` is what the buffer allocator returns. */
  function ScheduleBlock(c: Config, s: State, k: int, preallocated: bool, memory: Memory): (r: State)
    requires IsSlot(c, s, k)
    ensures Shape(c, r)
  {
    var f := FileOf(c, s, k);
    if f.blockSize * Issued(f) >= |f.src| || (!preallocated && memory.None?) then ClearBlock(c, s, k, false)
    else if preallocated then Start(c, s, k)
    else Start(c, Reserve(c, s, k, memory.value), k)
  }

  /** A buffer from the allocator, whatever bytes are in it. */
  function Reserve(c: Config, s: State, k: int, contents: int -> byte): (r: State)
    requires IsSlot(c, s, k)
    ensures Shape(c, r)
  {
    var f := FileOf(c, s, k);
    Touch(c, s, k, f, s.blocks[k].(data := Some(seq(f.blockSize, contents)))).(totalMem := s.totalMem + f.blockSize)
  }

  function StartedBlock(f: FileJob, data: Option<seq<byte>>): Block
  {
    var offset := f.blockSize * Issued(f);
    var nbytes := Min(f.blockSize, |f.src| - offset);
    Block(true, Issued(f), READ, EINPROGRESS, offset, nbytes, nbytes, data, 0)
  }

  function Start(c: Config, s: State, k: int): (r: State)
    requires IsSlot(c, s, k)
    ensures Shape(c, r)
  {
    var f := FileOf(c, s, k);
    Touch(c, s, k, f.(nScheduled := f.nScheduled + 1), StartedBlock(f, s.blocks[k].data)).(batch := s.batch + [k])
  }

  function Buffer(b: Block): seq<byte> { if b.data.Some? then b.data.value else [] }

  /** The read that is done becomes a write, padded with zeros to the alignment. */
  function Writing(c: Config, b: Block): Block
  {
    var writeBytes := AlignUp(b.nbytes);
    var pad := Zeros(writeBytes - b.nbytes);
    var hash := if c.readback then c.hash(Bytes(Buffer(b), 0, b.nbytes)) else 0;
    b.(kind := WRITE, status := EINPROGRESS, cbBytes := writeBytes, data := Some(Splice(Buffer(b), b.nbytes, pad)),
        srcHash := hash)
  }

  /** The write that is done becomes a read of the destination into a cleared buffer. */
  function ReadingBack(b: Block): Block
  {
    b.(kind := READDST, status := EINPROGRESS, cbBytes := b.nbytes, data := Some(Splice(Buffer(b), 0, Zeros(b.nbytes))))
  }

  /** The block is done: its number moves from the scheduled to the finished ones. */
  function Release(c: Config, s: State, k: int, errors: int, refused: bool := false): (r: State)
    requires IsSlot(c, s, k)
    ensures Shape(c, r)
  {
    var f, b := FileOf(c, s, k), s.blocks[k];
    Touch(c, s, k, ReleasedFile(f, b, errors, refused), Idle(b.data))
  }

  function ReleasedFile(f: FileJob, b: Block, errors: int, refused: bool := false): FileJob
  {
    f.(nScheduled := f.nScheduled - 1, nFinished := f.nFinished + 1, nErrors := f.nErrors + errors,
       finished := f.finished + {b.jobno}, faulty := if refused then f.faulty + {b.jobno} else f.faulty)
  }

  predicate IsZero(s: seq<byte>) { forall i :: 0 <= i < |s| ==> s[i] == 0 }

  function Mismatch(c: Config, b: Block): int
  {
    if b.kind == READDST && c.hash(Bytes(Buffer(b), 0, b.nbytes)) != b.srcHash then 1 else 0
  }

  /** `schedulerUpdateBlockCopyJob`. */
  function UpdateBlock(c: Config, s: State, k: int): (r: State)
    requires IsSlot(c, s, k)
    ensures Shape(c, r)
  {
    var f, b := FileOf(c, s, k), s.blocks[k];
    if b.status == 0 then
      match b.kind
      case READ =>
        if c.sparse && IsZero(Bytes(Buffer(b), 0, b.nbytes)) then Touch(c, s, k, f, b.(kind := FINISH))
        else Touch(c, s, k, f, Writing(c, b)).(batch := s.batch + [k])
      case WRITE =>
        if c.readback then Touch(c, s, k, f, ReadingBack(b)).(batch := s.batch + [k])
        else Touch(c, s, k, f, b.(kind := FINISH))
      case _ => ScheduleBlock(c, Release(c, s, k, Mismatch(c, b)), k, true, None)
    else if b.status != EINPROGRESS then ClearBlock(c, Release(c, s, k, 0), k, false)
    else s
  }

  /** A request of slot `k` was not completed in full. */
  function Spoil(c: Config, s: State, k: int): (r: State)
    requires IsSlot(c, s, k)
    ensures Shape(c, r)
  {
    var f, b := FileOf(c, s, k), s.blocks[k];
    Touch(c, s, k, f.(spoiled := f.spoiled + {b.jobno}), b)
  }

  predicate BatchInRange(s: State) { forall i :: 0 <= i < |s.batch| ==> 0 <= s.batch[i] < |s.blocks| }

  /** The first request of a batch that was refused as a whole. */
  function FailFirst(c: Config, s: State): (r: State)
    requires Shape(c, s) && BatchInRange(s) && s.batch != []
    ensures Shape(c, r) && r.batch == s.batch[1..] && |r.blocks| == |s.blocks|
  {
    var k := s.batch[0];
    ClearBlock(c, Release(c, Spoil(c, s, k), k, 1, true), k, false).(batch := s.batch[1..])
  }

  function FailBatch(c: Config, s: State): (r: State)
    requires Shape(c, s) && BatchInRange(s)
    ensures Shape(c, r) && r.batch == [] && |r.blocks| == |s.blocks|
    decreases |s.batch|
  {
    if s.batch == [] then s else FailBatch(c, FailFirst(c, s))
  }

  /** `schedIOSubmitBatch`, where `io_submit` returns `submitted`. */
  function SubmitBatch(c: Config, s: State, submitted: int): (r: State)
    requires Shape(c, s) && BatchInRange(s) && submitted <= |s.batch|
    ensures Shape(c, r)
  {
    if s.batch == [] then s
    else if submitted < 0 then FailBatch(c, s)
    else s.(kernel := s.kernel + (set i | 0 <= i < submitted :: s.batch[i]), batch := s.batch[submitted..])
  }

  /** The status that `rd_done` and `wr_done` store. */
  function StatusOf(res: int, cbBytes: int): int
  {
    if res <= 0 then -res else if res != cbBytes then EIO else 0
  }

  /** What the kernel does to the buffer; `other` is what a request left there that was not completed in full. */
  function BufferAfter(f: FileJob, b: Block, full: bool, other: seq<byte>): seq<byte>
  {
    var d := Buffer(b);
    if b.kind == WRITE then d
    else if !full then (if |other| == |d| then other else d)
    else Splice(d, 0, Bytes(if b.kind == READ then f.src else f.dst, b.offset, b.offset + b.nbytes))
  }

  /**
    What the kernel does to the destination: a write that was not completed in full leaves anything
    in its own range.
   */
  function DestinationAfter(f: FileJob, b: Block, full: bool, other: seq<byte>): seq<byte>
  {
    if b.kind != WRITE then f.dst
    else if !full then (if |other| == b.cbBytes then Splice(f.dst, b.offset, other) else f.dst)
    else Splice(f.dst, b.offset, Bytes(Buffer(b), 0, b.cbBytes))
  }

  /** A readback that counts as done leaves bytes in the buffer whose hash is not the one kept. */
  predicate BringsOther(c: Config, f: FileJob, b: Block, res: int, other: seq<byte>)
  {
    && b.kind == READDST && (res == 0 || res == b.cbBytes)
    && c.hash(Bytes(BufferAfter(f, b, res == b.cbBytes, other), 0, b.nbytes)) != b.srcHash
  }

  /** The kernel reports the request of slot `k` with result `res`. */
  function Complete(c: Config, s: State, k: int, res: int, other: seq<byte>): (r: State)
    requires IsSlot(c, s, k)
    ensures Shape(c, r)
  {
    var f, b := FileOf(c, s, k), s.blocks[k];
    var full := res == b.cbBytes;
    var f' := f.(dst := DestinationAfter(f, b, full, other), spoiled := f.spoiled + if full then {} else {b.jobno},
                 unread := f.unread + if b.kind == READ && !full then {b.jobno} else {},
                 faulty := f.faulty + if BringsOther(c, f, b, res, other) then {b.jobno} else {});
    Touch(c, s, k, f', b.(status := StatusOf(res, b.cbBytes),
        data := Some(BufferAfter(f, b, full, other)))).(kernel := s.kernel - {k})
  }

  function UpdateSlot(c: Config, s: State, k: int): (r: State)
    requires IsSlot(c, s, k)
    ensures Shape(c, r)
  {
    if FileOf(c, s, k).active && s.blocks[k].inUse then UpdateBlock(c, s, k) else s
  }

  /** The block slots below `n` of the first pass of `schedulerUpdate`. */
  function UpdateBlocks(c: Config, s: State, n: nat): (r: State)
    requires Shape(c, s) && n <= |s.blocks|
    ensures Shape(c, r)
  {
    if n == 0 then s else UpdateSlot(c, UpdateBlocks(c, s, n - 1), n - 1)
  }

  /** `schedulerClearFileCopyJob`, the block slots of file slot `i` below `n`. */
  function ClearSlots(c: Config, s: State, i: int, n: nat): (r: State)
    requires Shape(c, s) && n <= |s.blocks|
    ensures Shape(c, r)
  {
    if n == 0 then s
    else
      var t := ClearSlots(c, s, i, n - 1);
      if Parent(c, n - 1) == i && t.blocks[n - 1].inUse then ClearBlock(c, t, n - 1, false) else t
  }

  function ClearFile(c: Config, s: State, i: int): (r: State)
    requires Shape(c, s) && 0 <= i < |s.files|
    ensures Shape(c, r)
  {
    var t := ClearSlots(c, s, i, |s.blocks|);
    t.(files := t.files[i := NoFile()])
  }

  /** The first unused slot of file slot `i` from slot `k` on; the number of slots if there is none. */
  function FirstIdle(c: Config, s: State, i: int, k: nat): (r: nat)
    requires Shape(c, s) && k <= |s.blocks|
    ensures k <= r <= |s.blocks|
    ensures r < |s.blocks| ==> Parent(c, r) == i && !s.blocks[r].inUse
    ensures forall j :: k <= j < r && Parent(c, j) == i ==> s.blocks[j].inUse
    decreases |s.blocks| - k
  {
    if k == |s.blocks| then k
    else if Parent(c, k) == i && !s.blocks[k].inUse then k
    else FirstIdle(c, s, i, k + 1)
  }

  /** The second pass of `schedulerUpdate`, file slot `i`: hand a finished file over, or start one more block. */
  function UpdateFile(c: Config, s: State, i: int, memory: Memory): (r: State)
    requires Shape(c, s) && 0 <= i < |s.files|
    ensures Shape(c, r)
  {
    var f := s.files[i];
    if !f.active then s
    else if f.nFinished >= Count(f) then ClearFile(c, s.(handed := s.handed + [f]), i)
    else
      var k := FirstIdle(c, s, i, 0);
      if Issued(f) < Count(f) && k < |s.blocks| then ScheduleBlock(c, s, k, false, memory) else s
  }

  function UpdateFiles(c: Config, s: State, memory: seq<Memory>, n: nat): (r: State)
    requires Shape(c, s) && |memory| == c.nFile && n <= c.nFile
    ensures Shape(c, r)
  {
    if n == 0 then s else UpdateFile(c, UpdateFiles(c, s, memory, n - 1), n - 1, memory[n - 1])
  }

  /** A job as the crawler enqueues it: the destination is new and has the aligned size. */
  datatype Job = Job(src: seq<byte>, blockSize: nat)

  function Accept(c: Config, s: State, i: int, job: Job): (r: State)
    requires Shape(c, s) && 0 <= i < |s.files|
    ensures Shape(c, r)
  {
    var f := FileJob(true, s.accepted, job.src, Zeros(AlignUp(|job.src|)), job.blockSize, 0, 0, 0, {}, {}, {}, {});
    s.(files := s.files[i := f], accepted := s.accepted + 1)
  }

  /** The third pass of `schedulerUpdate` from file slot `i` on, with the jobs that the queue yields. */
  function AcceptJobs(c: Config, s: State, i: nat, jobs: seq<Job>): (r: State)
    requires Shape(c, s) && i <= c.nFile
    ensures Shape(c, r)
    decreases c.nFile - i
  {
    if i == c.nFile then s
    else if s.files[i].active then AcceptJobs(c, s, i + 1, jobs)
    else if jobs == [] then s
    else AcceptJobs(c, Accept(c, s, i, jobs[0]), i + 1, jobs[1..])
  }

  /** What the environment decides during one turn of `schedulerUpdate`. */
  datatype Choices = Choices(memory: seq<Memory>, jobs: seq<Job>, submit: int -> int)

  ghost predicate Fair(c: Config, e: Choices)
  {
    && |e.memory| == c.nFile
    && forall n :: e.submit(n) <= n
  }

  function Passes(c: Config, s: State, e: Choices): (r: State)
    requires Shape(c, s) && |e.memory| == c.nFile
    ensures Shape(c, r)
  {
    AcceptJobs(c, UpdateFiles(c, UpdateBlocks(c, s, |s.blocks|), e.memory, c.nFile), 0, e.jobs)
  }

  function Empty(c: Config): (s: State)
  {
    State(seq(c.nFile, _ => NoFile()), seq(c.nFile * c.nPer, _ => Idle(None)), [], {}, [], 0, 0)
  }
}
