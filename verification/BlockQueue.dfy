/**
  The blocks behind the dequeue counters: where elements are stored, when a block is empty
  and when it may be used again.

  A consumer that drew an index looks up the block, takes the element out, counts it as
  emptied, and the one that empties the block removes it from the index and frees it.  The
  stage `Crash` is reached by a lookup that finds no block or a read of an unwritten slot.
 */
module BlockQueue {
  import opened Cardinality
  import C = DequeueCounters

  type Tid = nat
  type Block = nat

  const BLOCK_SIZE := 128

  datatype Stage<T> =
    | Counting
    | Find
    | Read(b: Block)
    | SetEmpty(b: Block, element: T)
    | ClearEntry(b: Block)
    | FreeBlock(b: Block)
    | Crash

  datatype Producer<T> =
    | Ready
    | Acquired(element: T, b: Block)
    | Prepared(element: T, b: Block)
    | Writing(element: T)
    | Publishing

  /** The producer is between storing a block in the index, or finding one there, and publishing. */
  predicate InBlock<T>(p: Producer<T>) { p.Writing? || p.Publishing? }

  /** Where a physical block is; `Claimed` is with the producer, not yet in the index. */
  datatype Where = Free | Claimed | InUse(number: nat) | Held(t: Tid)

  datatype State<T> = State(
    c: C.State, stages: map<Tid, Stage<T>>, producer: Producer<T>, tailBlock: Block,
    index: map<nat, Block>, slots: map<Block, map<int, T>>, emptied: map<Block, nat>, place: map<Block, Where>,
    items: seq<T>, done: set<nat>, got: map<nat, T>)

  /**
    A producer step.  At the start of a block the producer gets hold of `b`, a block that is
    free or new, resets it, and stores it in the index; then it writes and publishes.
   */
  function Produce<T>(s: State<T>, x: T, b: Block): State<T>
    requires CanProduce(s, b)
    requires s.producer.Writing? ==> s.tailBlock in s.slots
  {
    match s.producer
    case Ready =>
      if s.c.tail % BLOCK_SIZE != 0 then s.(producer := Writing(x))
      else s.(producer := Acquired(x, b), place := s.place[b := Claimed],
              slots := if b in s.slots then s.slots else s.slots[b := map[]],
              emptied := if b in s.emptied then s.emptied else s.emptied[b := 0])
    case Acquired(e, n) => s.(producer := Prepared(e, n), slots := s.slots[n := map[]], emptied := s.emptied[n := 0])
    case Prepared(e, n) =>
      var k := s.c.tail / BLOCK_SIZE;
      s.(producer := Writing(e), tailBlock := n, index := s.index[k := n], place := s.place[n := InUse(k)])
    case Writing(e) =>
      var o := s.c.tail % BLOCK_SIZE;
      s.(producer := Publishing, items := s.items + [e], slots := s.slots[s.tailBlock := s.slots[s.tailBlock][o := e]])
    case Publishing => s.(producer := Ready, c := C.Publish(s.c))
  }

  /** A block that the producer is to start with must be free or new. */
  predicate CanProduce<T>(s: State<T>, b: Block)
  {
    s.producer.Ready? && s.c.tail % BLOCK_SIZE == 0 ==> b !in s.place || s.place[b].Free?
  }

  predicate CanConsume<T>(s: State<T>, t: Tid)
  {
    && t in s.stages && t in s.c.pcs && (s.c.pcs[t].Taken? <==> !s.stages[t].Counting?)
    && (s.stages[t].Read? ==> s.stages[t].b in s.slots) && (s.stages[t].SetEmpty? ==> s.stages[t].b in s.emptied)
  }

  /** A consumer step. */
  function Consume<T>(s: State<T>, t: Tid): State<T>
    requires CanConsume(s, t)
  {
    match s.stages[t]
    case Counting =>
      var c := C.Step(s.c, t);
      s.(c := c, stages := s.stages[t := if c.pcs[t].Taken? then Find else Counting])
    case Find =>
      var n := s.c.pcs[t].index / BLOCK_SIZE;
      s.(stages := s.stages[t := if n in s.index then Read(s.index[n]) else Crash])
    case Read(b) =>
      var o := s.c.pcs[t].index % BLOCK_SIZE;
      s.(stages := s.stages[t := if o in s.slots[b] then SetEmpty(b, s.slots[b][o]) else Crash])
    case SetEmpty(b, e) =>
      var i := s.c.pcs[t].index;
      var s' := s.(emptied := s.emptied[b := s.emptied[b] + 1], done := s.done + {i}, got := s.got[i := e]);
      if s.emptied[b] == BLOCK_SIZE - 1 then s'.(stages := s.stages[t := ClearEntry(b)])
      else s'.(stages := s.stages[t := Counting], c := C.Step(s.c, t))
    case ClearEntry(b) =>
      s.(stages := s.stages[t := FreeBlock(b)], index := s.index - {s.c.pcs[t].index / BLOCK_SIZE},
          place := s.place[b := Held(t)])
    case FreeBlock(b) =>
      s.(stages := s.stages[t := Counting], c := C.Step(s.c, t), place := s.place[b := Free])
    case Crash => s
  }

  // ----- the invariant

  /** The emptied slots of block number `n`. */
  function DoneIn(done: set<nat>, n: nat): set<nat> { set i | i in done && i / BLOCK_SIZE == n }

  /** Every element that is written and not yet emptied is in its slot. */
  ghost predicate SlotsOk<T(!new)>(s: State<T>)
  {
    forall i: nat :: i < |s.items| && i !in s.done ==> Stored(s, i)
  }

  predicate Stored<T(==)>(s: State<T>, i: nat)
    requires i < |s.items|
  {
    var n, o := i / BLOCK_SIZE, i % BLOCK_SIZE;
    n in s.index && s.index[n] in s.slots && o in s.slots[s.index[n]] && s.slots[s.index[n]][o] == s.items[i]
  }

  /** The index and the places of the blocks agree, and the counters count. */
  ghost predicate BlocksOk<T(!new)>(s: State<T>)
  {
    && s.slots.Keys == s.emptied.Keys == s.place.Keys
    && (forall n :: n in s.index ==>
          s.index[n] in s.place && s.place[s.index[n]] == InUse(n) && s.emptied[s.index[n]] == |DoneIn(s.done, n)|)
    && (forall b :: b in s.place && s.place[b].InUse? ==>
          s.place[b].number in s.index && s.index[s.place[b].number] == b)
    && (forall b :: b in s.place && s.place[b].Held? ==>
          s.place[b].t in s.stages && s.stages[s.place[b].t] == FreeBlock(b))
  }

  ghost predicate ThreadOk<T(!new)>(s: State<T>, t: Tid)
    requires t in s.stages && t in s.c.pcs && s.c.pcs[t].Taken?
  {
    var i := s.c.pcs[t].index;
    match s.stages[t]
    case Counting => false
    case Crash => false
    case Find => i !in s.done
    case Read(b) => i !in s.done && i / BLOCK_SIZE in s.index && s.index[i / BLOCK_SIZE] == b
    case SetEmpty(b, e) =>
      i !in s.done && i / BLOCK_SIZE in s.index && s.index[i / BLOCK_SIZE] == b && i < |s.items| && e == s.items[i]
    case ClearEntry(b) =>
      i in s.done && i / BLOCK_SIZE in s.index && s.index[i / BLOCK_SIZE] == b &&
        |DoneIn(s.done, i / BLOCK_SIZE)| == BLOCK_SIZE
    case FreeBlock(b) => i in s.done && b in s.place && s.place[b] == Held(t)
  }

  ghost predicate ThreadsOk<T(!new)>(s: State<T>)
  {
    && s.stages.Keys == s.c.pcs.Keys
    && (forall t :: t in s.stages ==> (s.c.pcs[t].Taken? <==> !s.stages[t].Counting?))
    && (forall t :: t in s.stages && s.c.pcs[t].Taken? ==> ThreadOk(s, t))
    && forall t, u :: t in s.stages && u in s.stages && t != u && s.stages[t].ClearEntry? && s.stages[u].ClearEntry?
         ==> s.c.pcs[t].index / BLOCK_SIZE != s.c.pcs[u].index / BLOCK_SIZE
  }

  ghost predicate ProducerOk<T(!new)>(s: State<T>)
  {
    && |s.items| == s.c.tail + (if s.producer.Publishing? then 1 else 0)
    && (s.c.tail % BLOCK_SIZE != 0 || InBlock(s.producer) ==>
          s.c.tail / BLOCK_SIZE in s.index && s.index[s.c.tail / BLOCK_SIZE] == s.tailBlock)
    && (forall n :: n in s.index ==> n * BLOCK_SIZE < s.c.tail + (if InBlock(s.producer) then 1 else 0))
  }

  /** What was handed out is what was put in, at the same index. */
  ghost predicate HistoryOk<T(!new)>(s: State<T>)
  {
    && s.got.Keys == s.done
    && (forall i :: i in s.got ==> i < s.c.head && i < |s.items| && s.got[i] == s.items[i])
  }

  ghost predicate Inv<T(!new)>(s: State<T>)
  {
    C.Inv(s.c) && SlotsOk(s) && BlocksOk(s) && ThreadsOk(s) && ProducerOk(s) && HistoryOk(s)
  }

  /** The producer alone has the block that it has claimed. */
  ghost predicate ClaimOk<T(!new)>(s: State<T>)
  {
    && (s.producer.Acquired? || s.producer.Prepared? ==>
          s.c.tail % BLOCK_SIZE == 0 && s.producer.b in s.place && s.place[s.producer.b].Claimed?)
    && (s.producer.Prepared? ==>
          s.producer.b in s.slots && s.slots[s.producer.b] == map[] && s.producer.b in s.emptied &&
              s.emptied[s.producer.b] == 0)
    && (forall b :: b in s.place && s.place[b].Claimed? ==>
          (s.producer.Acquired? || s.producer.Prepared?) && s.producer.b == b)
  }

  // ----- counting the emptied slots

  function Segment(lo: nat, k: nat): (r: set<nat>)
    ensures forall i: nat :: i in r <==> lo <= i < lo + k
  {
    if k == 0 then {} else Segment(lo, k - 1) + {lo + k - 1}
  }

  lemma DoneAdd(done: set<nat>, i: nat, n: nat)
    requires i !in done
    ensures |DoneIn(done + {i}, n)| == |DoneIn(done, n)| + (if i / BLOCK_SIZE == n then 1 else 0)
  {
    assert DoneIn(done + {i}, n) == DoneIn(done, n) + (if i / BLOCK_SIZE == n then {i} else {});
  }

  lemma {:induction false} SegmentSize(lo: nat, k: nat)
    ensures |Segment(lo, k)| == k
  {
    if k > 0 { SegmentSize(lo, k - 1); }
  }

  /** A block is full of emptied slots exactly when every one of its slots is emptied. */
  lemma AllDone(done: set<nat>, n: nat)
    ensures |DoneIn(done, n)| <= BLOCK_SIZE
    ensures |DoneIn(done, n)| == BLOCK_SIZE ==> forall i: nat :: i / BLOCK_SIZE == n ==> i in done
  {
    SegmentSize(n * BLOCK_SIZE, BLOCK_SIZE);
    var d, r := DoneIn(done, n), Segment(n * BLOCK_SIZE, BLOCK_SIZE);
    assert d <= r;
    SubsetSize(d, r);
    if |d| == BLOCK_SIZE {
      forall i: nat | i / BLOCK_SIZE == n ensures i in done {
        if i !in d { SubsetSize(d, r - {i}); }
      }
    }
  }

  // ----- every step keeps the invariant

  lemma BeginInBlock<T(!new)>(s: State<T>, x: T, b: Block)
    requires Inv(s) && CanProduce(s, b) && s.producer.Ready? && s.c.tail % BLOCK_SIZE != 0
    ensures Inv(Produce(s, x, b))
  {
    hide C.Inv, DoneIn;
    var s' := Produce(s, x, b);
    forall i: nat | i < |s'.items| && i !in s'.done ensures Stored(s', i) { assert Stored(s, i); }
    forall t | t in s'.stages && s'.c.pcs[t].Taken? ensures ThreadOk(s', t) { assert ThreadOk(s, t); }
  }

  /** Getting hold of a block that was in use nowhere, and resetting it. */
  lemma ClaimStep<T(!new)>(s: State<T>, x: T, b: Block)
    requires Inv(s) && ClaimOk(s) && CanProduce(s, b)
    requires (s.producer.Ready? && s.c.tail % BLOCK_SIZE == 0) || s.producer.Acquired?
    ensures Inv(Produce(s, x, b))
  {
    var s', n := Produce(s, x, b), if s.producer.Ready? then b else s.producer.b;
    ClaimOutOfUse(s, x, b, n);
    hide C.Inv, ProducerOk, HistoryOk, ClaimOk, Produce, OutOfUse, SlotsOk, BlocksOk, ThreadsOk;
    OutOfUseBlocks(s, s', n);
    OutOfUseSlots(s, s', n);
    OutOfUseThreads(s, s', n);
  }

  lemma ClaimOutOfUse<T(!new)>(s: State<T>, x: T, b: Block, n: Block)
    requires BlocksOk(s) && ProducerOk(s) && HistoryOk(s) && ClaimOk(s) && CanProduce(s, b)
    requires (s.producer.Ready? && s.c.tail % BLOCK_SIZE == 0 && n == b) || (s.producer.Acquired? && n == s.producer.b)
    ensures var s' := Produce(s, x, b); OutOfUse(s, s', n) && ProducerOk(s') && HistoryOk(s') && s'.c == s.c
  {
    hide DoneIn;
    if s.producer.Ready? {
    } else {
      hide HistoryOk;
    }
  }

  /** A block that is in use nowhere changes, and stays out of use. */
  ghost predicate OutOfUse<T(!new)>(s: State<T>, s': State<T>, n: Block)
  {
    && (n !in s.place || s.place[n].Free? || s.place[n].Claimed?)
    && s' == s.(producer := s'.producer, slots := s'.slots, emptied := s'.emptied, place := s.place[n := Claimed])
    && s.slots.Keys == s.emptied.Keys == s.place.Keys && s'.slots.Keys == s'.emptied.Keys == s.place.Keys + {n}
    && forall b :: b in s.place && b != n ==> s'.slots[b] == s.slots[b] && s'.emptied[b] == s.emptied[b]
  }

  lemma OutOfUseBlocks<T(!new)>(s: State<T>, s': State<T>, n: Block)
    requires BlocksOk(s) && OutOfUse(s, s', n)
    ensures BlocksOk(s')
  {
    hide DoneIn;
    forall m | m in s'.index ensures s.index[m] != n {}
  }

  lemma OutOfUseSlots<T(!new)>(s: State<T>, s': State<T>, n: Block)
    requires SlotsOk(s) && BlocksOk(s) && OutOfUse(s, s', n)
    ensures SlotsOk(s')
  {
    hide DoneIn;
    forall m | m in s.index ensures s.index[m] in s.place && s.index[m] != n {}
    hide BlocksOk;
    forall i: nat | i < |s'.items| && i !in s'.done ensures Stored(s', i) { assert Stored(s, i); }
  }

  lemma OutOfUseThreads<T(!new)>(s: State<T>, s': State<T>, n: Block)
    requires ThreadsOk(s) && OutOfUse(s, s', n)
    ensures ThreadsOk(s')
  {
    hide DoneIn;
    forall t | t in s'.stages && s'.c.pcs[t].Taken? ensures ThreadOk(s', t) { assert ThreadOk(s, t); }
  }

  /** Storing the new block in the index: nothing in it is emptied yet. */
  lemma BeginNewBlock<T(!new)>(s: State<T>, x: T, b: Block)
    requires Inv(s) && ClaimOk(s) && s.producer.Prepared?
    ensures Inv(Produce(s, x, b))
  {
    hide C.Inv, DoneIn, SlotsOk, BlocksOk, ThreadsOk;
    var s', n := Produce(s, x, b), s.c.tail / BLOCK_SIZE;
    assert n * BLOCK_SIZE == s.c.tail && n !in s.index;
    NothingDone(s, n);
    assert BlocksOk(s') by { NewBlockPlaces(s, x, b, n); }
    assert SlotsOk(s') && ThreadsOk(s') by { NewBlockKeeps(s, x, b, n); }
  }

  lemma NewBlockPlaces<T(!new)>(s: State<T>, x: T, b: Block, n: nat)
    requires BlocksOk(s) && ClaimOk(s) && s.producer.Prepared? && n == s.c.tail / BLOCK_SIZE && n !in s.index
    requires |DoneIn(s.done, n)| == 0
    ensures BlocksOk(Produce(s, x, b))
  {
    hide DoneIn;
  }

  lemma NewBlockKeeps<T(!new)>(s: State<T>, x: T, b: Block, n: nat)
    requires BlocksOk(s) && SlotsOk(s) && ThreadsOk(s) && ClaimOk(s)
    requires s.producer.Prepared? && n == s.c.tail / BLOCK_SIZE && n !in s.index
    ensures SlotsOk(Produce(s, x, b)) && ThreadsOk(Produce(s, x, b))
  {
    hide DoneIn;
    var s' := Produce(s, x, b);
    forall i: nat | i < |s'.items| && i !in s'.done ensures Stored(s', i) { assert Stored(s, i); }
    forall t | t in s'.stages && s'.c.pcs[t].Taken? ensures ThreadOk(s', t) { assert ThreadOk(s, t); }
  }

  lemma NothingDone<T(!new)>(s: State<T>, n: nat)
    requires C.Inv(s.c) && HistoryOk(s) && n * BLOCK_SIZE >= s.c.tail
    ensures |DoneIn(s.done, n)| == 0
  {
    C.DrawnIsPublished(s.c);
    assert DoneIn(s.done, n) == {};
  }

  lemma WriteStep<T(!new)>(s: State<T>, x: T, b: Block)
    requires Inv(s) && s.producer.Writing?
    ensures s.tailBlock in s.slots && Inv(Produce(s, x, b))
  {
    hide C.Inv, DoneIn, SlotsOk, ThreadsOk;
    var s' := Produce(s, x, b);
    assert SlotsOk(s') by { WriteSlots(s, x, b); }
    assert ThreadsOk(s') by { WriteThreads(s, x, b); }
  }

  lemma WriteSlots<T(!new)>(s: State<T>, x: T, b: Block)
    requires Inv(s) && s.producer.Writing? && s.tailBlock in s.slots
    ensures SlotsOk(Produce(s, x, b))
  {
    hide C.Inv, DoneIn, ThreadsOk, HistoryOk;
    var s' := Produce(s, x, b);
    forall i: nat | i < |s'.items| && i !in s'.done ensures Stored(s', i) {
      if i < |s.items| { WriteElsewhere(s, i); }
    }
  }

  lemma WriteThreads<T(!new)>(s: State<T>, x: T, b: Block)
    requires ThreadsOk(s) && s.producer.Writing? && s.tailBlock in s.slots
    ensures ThreadsOk(Produce(s, x, b))
  {
    hide DoneIn;
    var s' := Produce(s, x, b);
    forall t | t in s'.stages && s'.c.pcs[t].Taken? ensures ThreadOk(s', t) { assert ThreadOk(s, t); }
  }

  lemma WriteElsewhere<T(!new)>(s: State<T>, i: nat)
    requires Inv(s) && s.producer.Writing? && i < |s.items| && i !in s.done
    ensures Stored(s, i) && (s.index[i / BLOCK_SIZE] == s.tailBlock ==> i % BLOCK_SIZE != s.c.tail % BLOCK_SIZE)
  {
    assert Stored(s, i);
  }

  lemma PublishStep<T(!new)>(s: State<T>, x: T, b: Block)
    requires Inv(s) && s.producer.Publishing?
    ensures Inv(Produce(s, x, b))
  {
    hide DoneIn, C.Inv, SlotsOk, BlocksOk, ThreadsOk, ProducerOk;
    var s' := Produce(s, x, b);
    C.PublishInv(s.c);
    assert ProducerOk(s') by { PublishProducer(s, s'); }
    assert SlotsOk(s') && ThreadsOk(s') && BlocksOk(s') by { PublishKeeps(s, x, b); }
  }

  lemma PublishProducer<T(!new)>(s: State<T>, s': State<T>)
    requires ProducerOk(s) && s.producer.Publishing? && s' == s.(producer := Ready, c := C.Publish(s.c))
    ensures ProducerOk(s')
  {
    var n, m := s.c.tail / BLOCK_SIZE, (s.c.tail + 1) / BLOCK_SIZE;
    assert (s.c.tail + 1) % BLOCK_SIZE != 0 ==> n == m;
  }

  lemma PublishKeeps<T(!new)>(s: State<T>, x: T, b: Block)
    requires SlotsOk(s) && BlocksOk(s) && ThreadsOk(s) && s.producer.Publishing?
    ensures SlotsOk(Produce(s, x, b)) && BlocksOk(Produce(s, x, b)) && ThreadsOk(Produce(s, x, b))
  {
    hide DoneIn;
    var s' := Produce(s, x, b);
    forall i: nat | i < |s'.items| && i !in s'.done ensures Stored(s', i) { assert Stored(s, i); }
    forall t | t in s'.stages && s'.c.pcs[t].Taken? ensures ThreadOk(s', t) { assert ThreadOk(s, t); }
  }

  lemma ProduceInv<T(!new)>(s: State<T>, x: T, b: Block)
    requires Inv(s) && ClaimOk(s) && CanProduce(s, b)
    ensures s.producer.Writing? ==> s.tailBlock in s.slots
    ensures Inv(Produce(s, x, b))
  {
    hide Inv, ClaimOk;
    match s.producer
    case Ready => if s.c.tail % BLOCK_SIZE == 0 { ClaimStep(s, x, b); } else { BeginInBlock(s, x, b); }
    case Acquired(_, _) => ClaimStep(s, x, b);
    case Prepared(_, _) => BeginNewBlock(s, x, b);
    case Writing(_) => WriteStep(s, x, b);
    case Publishing => PublishStep(s, x, b);
  }

  /** A step of the counters; it may hand out an index. */
  lemma CountingStep<T(!new)>(s: State<T>, t: Tid)
    requires Inv(s) && t in s.stages && s.stages[t].Counting?
    ensures t in s.c.pcs && !s.c.pcs[t].Taken? && Inv(Consume(s, t))
  {
    hide DoneIn, C.Inv, SlotsOk, BlocksOk, ProducerOk, HistoryOk;
    var s', c := Consume(s, t), C.Step(s.c, t);
    C.StepInv(s.c, t);
    CounterFrame(s.c, t);
    assert SlotsOk(s') && BlocksOk(s') && ProducerOk(s') && HistoryOk(s') by { CountingKeeps(s, s', t); }
    forall u | u in s'.stages && s'.c.pcs[u].Taken? ensures ThreadOk(s', u) {
      if u != t { assert ThreadOk(s, u); } else { FreshIndex(s, t); }
    }
  }

  lemma CounterFrame(c: C.State, t: Tid)
    requires t in c.pcs
    ensures C.Step(c, t).tail == c.tail && C.Step(c, t).head >= c.head && C.Step(c, t).pcs.Keys == c.pcs.Keys
    ensures forall u :: u in c.pcs && u != t ==> C.Step(c, t).pcs[u] == c.pcs[u]
    ensures !c.pcs[t].Taken? && C.Step(c, t).pcs[t].Taken? ==> c.pcs[t].Take? && C.Step(c, t).pcs[t].index == c.head
    ensures c.pcs[t].Taken? ==> C.Step(c, t) == c.(pcs := c.pcs[t := C.Idle])
  {
  }

  lemma FreshIndex<T(!new)>(s: State<T>, t: Tid)
    requires HistoryOk(s) && t in s.c.pcs && s.c.pcs[t].Take?
    ensures s.c.head !in s.done
  {
  }

  lemma CountingKeeps<T(!new)>(s: State<T>, s': State<T>, t: Tid)
    requires SlotsOk(s) && BlocksOk(s) && ProducerOk(s) && HistoryOk(s) && t in s.stages && s.stages[t].Counting?
    requires s' == s.(c := s'.c, stages := s'.stages) && s'.c.tail == s.c.tail && s'.c.head >= s.c.head
    requires t in s'.stages && s'.stages == s.stages[t := s'.stages[t]]
    ensures SlotsOk(s') && BlocksOk(s') && ProducerOk(s') && HistoryOk(s')
  {
    hide DoneIn;
    forall i: nat | i < |s'.items| && i !in s'.done ensures Stored(s', i) { assert Stored(s, i); }
  }

  /** The block of a drawn index is there, and its slot is written. */
  lemma DrawnIsStored<T(!new)>(s: State<T>, t: Tid)
    requires Inv(s) && t in s.stages && s.c.pcs[t].Taken? && s.c.pcs[t].index !in s.done
    ensures s.c.pcs[t].index < s.c.tail <= |s.items| && Stored(s, s.c.pcs[t].index)
  {
    hide DoneIn, BlocksOk;
    C.DrawnIsPublished(s.c);
    assert C.LocalOk(s.c, s.c.pcs[t]);
  }

  /** Looking up the block and reading the slot. */
  lemma LookupSteps<T(!new)>(s: State<T>, t: Tid)
    requires Inv(s) && t in s.stages && (s.stages[t].Find? || s.stages[t].Read?)
    ensures t in s.c.pcs && s.c.pcs[t].Taken? && (s.stages[t].Read? ==> s.stages[t].b in s.slots)
    ensures Inv(Consume(s, t))
  {
    hide DoneIn, C.Inv, ProducerOk, HistoryOk, BlocksOk, SlotsOk;
    assert s.c.pcs[t].Taken? && ThreadOk(s, t);
    DrawnIsStored(s, t);
    var s' := Consume(s, t);
    assert SlotsOk(s') && BlocksOk(s') && ProducerOk(s') && HistoryOk(s') by { StageKeeps(s, s', t); }
    forall u | u in s'.stages && s'.c.pcs[u].Taken? ensures ThreadOk(s', u) { if u != t { assert ThreadOk(s, u); } }
  }

  lemma StageKeeps<T(!new)>(s: State<T>, s': State<T>, t: Tid)
    requires SlotsOk(s) && BlocksOk(s) && ProducerOk(s) && HistoryOk(s) && t in s.stages && !s.stages[t].FreeBlock?
    requires t in s'.stages && s' == s.(stages := s.stages[t := s'.stages[t]])
    ensures SlotsOk(s') && BlocksOk(s') && ProducerOk(s') && HistoryOk(s')
  {
    hide DoneIn;
    assert SlotsOk(s') by { hide BlocksOk; SameSlots(s, s'); }
    hide SlotsOk;
  }

  lemma SameSlots<T(!new)>(s: State<T>, s': State<T>)
    requires SlotsOk(s) && s'.index == s.index && s'.slots == s.slots && s'.items == s.items && s.done <= s'.done
    ensures SlotsOk(s')
  {
    forall i: nat | i < |s'.items| && i !in s'.done ensures Stored(s', i) { assert Stored(s, i); }
  }

  /** What the thread that counts a slot as emptied knows. */
  ghost predicate Emptying<T(!new)>(s: State<T>, t: Tid, i: nat, b: Block)
  {
    && t in s.stages && t in s.c.pcs && s.c.pcs[t] == C.Taken(i) && s.stages[t].SetEmpty? && s.stages[t].b == b
    && b in s.emptied
    && i !in s.done && i / BLOCK_SIZE in s.index && s.index[i / BLOCK_SIZE] == b
    && i < s.c.head && i < |s.items| && s.stages[t].element == s.items[i]
  }

  lemma EmptyBlocks<T(!new)>(s: State<T>, t: Tid, i: nat, b: Block)
    requires BlocksOk(s) && Emptying(s, t, i, b)
    ensures BlocksOk(Consume(s, t)) && s.emptied[b] == |DoneIn(s.done, i / BLOCK_SIZE)|
  {
    hide DoneIn;
    var s' := Consume(s, t);
    forall n | n in s'.index ensures s'.emptied[s'.index[n]] == |DoneIn(s'.done, n)| { DoneAdd(s.done, i, n); }
  }

  lemma EmptySlots<T(!new)>(s: State<T>, t: Tid, i: nat, b: Block)
    requires SlotsOk(s) && ProducerOk(s) && HistoryOk(s) && Emptying(s, t, i, b)
    ensures SlotsOk(Consume(s, t)) && ProducerOk(Consume(s, t)) && HistoryOk(Consume(s, t))
  {
    EmptyShape(s, t, i, b);
    hide Consume, SlotsOk;
    SameSlots(s, Consume(s, t));
  }

  lemma EmptyShape<T(!new)>(s: State<T>, t: Tid, i: nat, b: Block)
    requires Emptying(s, t, i, b)
    ensures CanConsume(s, t)
    ensures var s' := Consume(s, t);
            && s'.index == s.index && s'.slots == s.slots && s'.items == s.items && s'.producer == s.producer
            && s'.tailBlock == s.tailBlock && s'.c.tail == s.c.tail && s'.c.head == s.c.head
            && s'.done == s.done + {i} && s'.got == s.got[i := s.items[i]]
  {
    CounterFrame(s.c, t);
    hide C.Step;
  }

  lemma SetEmptyStep<T(!new)>(s: State<T>, t: Tid)
    requires Inv(s) && t in s.stages && s.stages[t].SetEmpty?
    ensures t in s.c.pcs && s.c.pcs[t].Taken? && s.stages[t].b in s.emptied
    ensures Inv(Consume(s, t))
  {
    hide C.Inv, ProducerOk, HistoryOk, SlotsOk, DoneIn;
    assert s.c.pcs[t].Taken? && ThreadOk(s, t);
    var i, b := s.c.pcs[t].index, s.stages[t].b;
    assert i < s.c.head by { DrawnIsBelow(s.c, t); }
    assert Emptying(s, t, i, b);
    C.StepInv(s.c, t);
    hide BlocksOk, ThreadsOk, Emptying;
    EmptyBlocks(s, t, i, b);
    EmptySlots(s, t, i, b);
    EmptyThreads(s, t, i, b);
  }

  lemma DrawnIsBelow(c: C.State, t: Tid)
    requires C.Inv(c) && t in c.pcs && c.pcs[t].Taken?
    ensures c.pcs[t].index < c.head
  {
    assert C.LocalOk(c, c.pcs[t]);
  }

  lemma EmptyThreads<T(!new)>(s: State<T>, t: Tid, i: nat, b: Block)
    requires C.Inv(s.c) && ThreadsOk(s) && Emptying(s, t, i, b) && s.emptied[b] == |DoneIn(s.done, i / BLOCK_SIZE)|
    ensures ThreadsOk(Consume(s, t))
  {
    hide C.Inv, DoneIn, ThreadOk, C.Step;
    var s' := Consume(s, t);
    CounterFrame(s.c, t);
    forall u | u in s'.stages && s'.c.pcs[u].Taken? ensures ThreadOk(s', u) {
      if u != t { EmptyOther(s, t, i, b, u); } else { EmptySelf(s, t, i, b); }
    }
    NoOtherClears(s, i);
  }

  /** A block with a slot left to empty is not being taken out of the index. */
  lemma NoOtherClears<T(!new)>(s: State<T>, i: nat)
    requires ThreadsOk(s) && i !in s.done
    ensures forall u :: u in s.stages && u in s.c.pcs && s.stages[u].ClearEntry? && s.c.pcs[u].Taken? ==>
              s.c.pcs[u].index / BLOCK_SIZE != i / BLOCK_SIZE
  {
    hide DoneIn;
    forall u | u in s.stages && u in s.c.pcs && s.stages[u].ClearEntry? && s.c.pcs[u].Taken?
      ensures s.c.pcs[u].index / BLOCK_SIZE != i / BLOCK_SIZE
    {
      assert ThreadOk(s, u);
      ClearingIsFull(s, u);
    }
  }

  lemma ClearingIsFull<T(!new)>(s: State<T>, u: Tid)
    requires u in s.stages && u in s.c.pcs && s.c.pcs[u].Taken? && s.stages[u].ClearEntry? && ThreadOk(s, u)
    ensures forall k: nat :: k / BLOCK_SIZE == s.c.pcs[u].index / BLOCK_SIZE ==> k in s.done
  {
    AllDone(s.done, s.c.pcs[u].index / BLOCK_SIZE);
  }

  lemma EmptySelf<T(!new)>(s: State<T>, t: Tid, i: nat, b: Block)
    requires Emptying(s, t, i, b) && s.emptied[b] == |DoneIn(s.done, i / BLOCK_SIZE)|
    requires t in Consume(s, t).c.pcs && Consume(s, t).c.pcs[t].Taken?
    ensures ThreadOk(Consume(s, t), t)
  {
    hide DoneIn;
    CounterFrame(s.c, t);
    DoneAdd(s.done, i, i / BLOCK_SIZE);
  }

  lemma EmptyOther<T(!new)>(s: State<T>, t: Tid, i: nat, b: Block, u: Tid)
    requires C.Inv(s.c) && Emptying(s, t, i, b) && u in s.stages && u in s.c.pcs && u != t && s.c.pcs[u].Taken?
    requires ThreadOk(s, u)
    ensures u in Consume(s, t).c.pcs && Consume(s, t).c.pcs[u] == s.c.pcs[u] && ThreadOk(Consume(s, t), u)
  {
    hide DoneIn, C.Inv;
    CounterFrame(s.c, t);
    OtherIndex(s, t, u);
    if s.stages[u].ClearEntry? {
      ClearingIsFull(s, u);
      DoneAdd(s.done, i, s.c.pcs[u].index / BLOCK_SIZE);
    }
  }

  lemma OtherIndex<T(!new)>(s: State<T>, t: Tid, u: Tid)
    requires C.Inv(s.c) && t in s.c.pcs && u in s.c.pcs && t != u && s.c.pcs[t].Taken? && s.c.pcs[u].Taken?
    ensures s.c.pcs[t].index != s.c.pcs[u].index
  {
  }

  /** Taking an emptied block out of the index. */
  lemma ClearStep<T(!new)>(s: State<T>, t: Tid)
    requires Inv(s) && t in s.stages && s.stages[t].ClearEntry?
    ensures t in s.c.pcs && s.c.pcs[t].Taken? && Inv(Consume(s, t))
  {
    hide C.Inv, DoneIn;
    assert s.c.pcs[t].Taken? && ThreadOk(s, t);
    var s', n := Consume(s, t), s.c.pcs[t].index / BLOCK_SIZE;
    ClearingIsFull(s, t);
    assert s.c.tail !in s.done by { C.DrawnIsPublished(s.c); }
    ClearBlocks(s, t, n);
    ClearRest(s, t, n);
  }

  lemma ClearBlocks<T(!new)>(s: State<T>, t: Tid, n: nat)
    requires BlocksOk(s) && t in s.stages && s.stages[t].ClearEntry? && t in s.c.pcs && s.c.pcs[t].Taken?
    requires ThreadOk(s, t)
    requires n == s.c.pcs[t].index / BLOCK_SIZE
    ensures BlocksOk(Consume(s, t))
  {
    hide DoneIn;
  }

  lemma ClearRest<T(!new)>(s: State<T>, t: Tid, n: nat)
    requires SlotsOk(s) && ProducerOk(s) && HistoryOk(s) && ThreadsOk(s) && BlocksOk(s)
    requires t in s.stages && s.stages[t].ClearEntry? && s.c.pcs[t].Taken? && n == s.c.pcs[t].index / BLOCK_SIZE
    requires forall k: nat :: k / BLOCK_SIZE == n ==> k in s.done
    requires s.c.tail !in s.done
    ensures SlotsOk(Consume(s, t)) && ProducerOk(Consume(s, t)) && HistoryOk(Consume(s, t)) && ThreadsOk(Consume(s, t))
  {
    assert ThreadOk(s, t);
    ClearShape(s, t, n);
    hide DoneIn, ThreadOk, Consume, SlotsOk, ProducerOk, HistoryOk, ThreadsOk, BlocksOk;
    ClearContents(s, Consume(s, t), n);
    ClearThreads(s, Consume(s, t), t, n);
  }

  lemma ClearShape<T(!new)>(s: State<T>, t: Tid, n: nat)
    requires CanConsume(s, t) && s.stages[t].ClearEntry? && n == s.c.pcs[t].index / BLOCK_SIZE
    ensures var b := s.stages[t].b;
            Consume(s, t) == s.(stages := s.stages[t := FreeBlock(b)], index := s.index - {n},
              place := s.place[b := Held(t)])
  {
  }

  lemma ClearContents<T(!new)>(s: State<T>, s': State<T>, n: nat)
    requires SlotsOk(s) && ProducerOk(s) && HistoryOk(s)
    requires s' == s.(stages := s'.stages, index := s.index - {n}, place := s'.place)
    requires (forall k: nat :: k / BLOCK_SIZE == n ==> k in s.done) && s.c.tail !in s.done
    ensures SlotsOk(s') && ProducerOk(s') && HistoryOk(s')
  {
    forall k: nat | k < |s'.items| && k !in s'.done ensures Stored(s', k) { assert Stored(s, k); }
  }

  lemma ClearThreads<T(!new)>(s: State<T>, s': State<T>, t: Tid, n: nat)
    requires ThreadsOk(s) && BlocksOk(s) && t in s.stages && s.stages[t].ClearEntry? && s.c.pcs[t].Taken?
    requires n == s.c.pcs[t].index / BLOCK_SIZE
    requires ThreadOk(s, t) && forall k: nat :: k / BLOCK_SIZE == n ==> k in s.done
    requires var b := s.stages[t].b;
            s' == s.(stages := s.stages[t := FreeBlock(b)], index := s.index - {n}, place := s.place[b := Held(t)])
    ensures ThreadsOk(s')
  {
    hide ThreadOk;
    forall u | u in s'.stages && s'.c.pcs[u].Taken? ensures ThreadOk(s', u) { ClearThread(s, s', t, n, u); }
  }

  lemma ClearThread<T(!new)>(s: State<T>, s': State<T>, t: Tid, n: nat, u: Tid)
    requires ThreadsOk(s) && BlocksOk(s) && t in s.stages && s.stages[t].ClearEntry? && s.c.pcs[t].Taken?
    requires n == s.c.pcs[t].index / BLOCK_SIZE
    requires ThreadOk(s, t) && forall k: nat :: k / BLOCK_SIZE == n ==> k in s.done
    requires var b := s.stages[t].b;
            s' == s.(stages := s.stages[t := FreeBlock(b)], index := s.index - {n}, place := s.place[b := Held(t)])
    requires u in s'.stages && u in s'.c.pcs && s'.c.pcs[u].Taken?
    ensures ThreadOk(s', u)
  {
    hide DoneIn;
    if u != t { assert ThreadOk(s, u); }
  }

  lemma FreeStep<T(!new)>(s: State<T>, t: Tid)
    requires Inv(s) && t in s.stages && s.stages[t].FreeBlock?
    ensures t in s.c.pcs && s.c.pcs[t].Taken? && Inv(Consume(s, t))
  {
    hide C.Inv, DoneIn, SlotsOk, ProducerOk, HistoryOk, BlocksOk;
    assert s.c.pcs[t].Taken? && ThreadOk(s, t);
    var s' := Consume(s, t);
    C.StepInv(s.c, t);
    CounterFrame(s.c, t);
    FreeKeeps(s, t);
    forall u | u in s'.stages && s'.c.pcs[u].Taken? ensures ThreadOk(s', u) { if u != t { assert ThreadOk(s, u); } }
  }

  lemma FreeKeeps<T(!new)>(s: State<T>, t: Tid)
    requires SlotsOk(s) && ProducerOk(s) && HistoryOk(s) && BlocksOk(s)
    requires t in s.stages && t in s.c.pcs && s.c.pcs[t].Taken? && s.stages[t].FreeBlock? && ThreadOk(s, t)
    ensures SlotsOk(Consume(s, t)) && ProducerOk(Consume(s, t)) && HistoryOk(Consume(s, t)) && BlocksOk(Consume(s, t))
  {
    hide DoneIn, SlotsOk, ProducerOk, HistoryOk;
    CounterFrame(s.c, t);
    var s' := Consume(s, t);
    assert s'.c.tail == s.c.tail && s'.c.head == s.c.head;
    hide C.Step;
    FreeContents(s, s', t);
  }

  lemma FreeContents<T(!new)>(s: State<T>, s': State<T>, t: Tid)
    requires SlotsOk(s) && ProducerOk(s) && HistoryOk(s)
    requires s'.c.tail == s.c.tail && s'.c.head == s.c.head
    requires s' == s.(c := s'.c, stages := s'.stages, place := s'.place)
    ensures SlotsOk(s') && ProducerOk(s') && HistoryOk(s')
  {
    forall k: nat | k < |s'.items| && k !in s'.done ensures Stored(s', k) { assert Stored(s, k); }
  }

  lemma ConsumeInv<T(!new)>(s: State<T>, t: Tid)
    requires Inv(s) && t in s.stages
    ensures CanConsume(s, t)
    ensures Inv(Consume(s, t))
  {
    assert s.c.pcs[t].Taken? ==> ThreadOk(s, t);
    hide Inv;
    match s.stages[t]
    case Counting => CountingStep(s, t);
    case Find => LookupSteps(s, t);
    case Read(_) => LookupSteps(s, t);
    case SetEmpty(_, _) => SetEmptyStep(s, t);
    case ClearEntry(_) => ClearStep(s, t);
    case FreeBlock(_) => FreeStep(s, t);
    case Crash =>
  }

  // ----- nothing is lost

  /** Consumer `t` is bound to take block number `n` out of the index. */
  ghost predicate Clearing<T(!new)>(s: State<T>, t: Tid, n: nat)
  {
    t in s.stages && s.stages[t].ClearEntry? && t in s.c.pcs && s.c.pcs[t].Taken? && s.c.pcs[t].index / BLOCK_SIZE == n
  }

  ghost predicate Carries(c: C.State, t: Tid, i: nat) { t in c.pcs && c.pcs[t].Taken? && c.pcs[t].index == i }

  /** A block all of whose slots are emptied has left the index, or a consumer is bound to take it out. */
  ghost predicate NoLeak<T(!new)>(s: State<T>)
  {
    forall n: nat :: n in s.index && |DoneIn(s.done, n)| == BLOCK_SIZE ==> exists t :: Clearing(s, t, n)
  }

  /** An index that was drawn is done, or its consumer still has it. */
  ghost predicate NoneDropped<T(!new)>(s: State<T>)
  {
    forall i: nat :: i < s.c.head && i !in s.done ==> exists t :: Carries(s.c, t, i)
  }

  ghost predicate Tidy<T(!new)>(s: State<T>)
  {
    ClaimOk(s) && NoLeak(s) && NoneDropped(s) && C.Conserved(s.c)
  }

  lemma TidyClaim<T(!new)>(s: State<T>)
    requires Tidy(s)
    ensures ClaimOk(s)
  {
  }

  lemma ProduceTidy<T(!new)>(s: State<T>, x: T, b: Block)
    requires Inv(s) && Tidy(s) && CanProduce(s, b) && (s.producer.Writing? ==> s.tailBlock in s.slots)
    ensures Tidy(Produce(s, x, b))
  {
    hide Inv, ClaimOk, NoLeak, NoneDropped, Produce;
    ProduceClaim(s, x, b);
    ProduceLeak(s, x, b);
    ProduceDrop(s, x, b);
  }

  lemma ProduceClaim<T(!new)>(s: State<T>, x: T, b: Block)
    requires Inv(s) && ClaimOk(s) && CanProduce(s, b) && (s.producer.Writing? ==> s.tailBlock in s.slots)
    ensures ClaimOk(Produce(s, x, b))
  {
    hide C.Inv, DoneIn, SlotsOk, ThreadsOk, HistoryOk, ProducerOk;
  }

  lemma ProduceLeak<T(!new)>(s: State<T>, x: T, b: Block)
    requires Inv(s) && ClaimOk(s) && NoLeak(s) && CanProduce(s, b) && (s.producer.Writing? ==> s.tailBlock in s.slots)
    ensures NoLeak(Produce(s, x, b))
  {
    hide C.Inv, DoneIn, SlotsOk, ThreadsOk, BlocksOk, HistoryOk, ProducerOk;
    var s' := Produce(s, x, b);
    if s.producer.Prepared? { NothingDone(s, s.c.tail / BLOCK_SIZE); }
    forall n: nat | n in s'.index && |DoneIn(s'.done, n)| == BLOCK_SIZE ensures exists t :: Clearing(s', t, n) {
      var t :| Clearing(s, t, n);
      assert Clearing(s', t, n);
    }
  }

  lemma ProduceDrop<T(!new)>(s: State<T>, x: T, b: Block)
    requires NoneDropped(s) && C.Conserved(s.c) && CanProduce(s, b) && (s.producer.Writing? ==> s.tailBlock in s.slots)
    ensures NoneDropped(Produce(s, x, b)) && C.Conserved(Produce(s, x, b).c)
  {
    var s' := Produce(s, x, b);
    forall i: nat | i < s'.c.head && i !in s'.done ensures exists t :: Carries(s'.c, t, i) {
      var t :| Carries(s.c, t, i);
      assert Carries(s'.c, t, i);
    }
  }

  lemma ConsumeClaim<T(!new)>(s: State<T>, t: Tid)
    requires Inv(s) && ClaimOk(s) && CanConsume(s, t)
    ensures ClaimOk(Consume(s, t))
  {
    hide C.Inv, C.Step, DoneIn, SlotsOk, HistoryOk, ProducerOk;
    OwnBlock(s, t);
    ConsumeChanges(s, t);
    hide BlocksOk, ThreadsOk, Consume;
  }

  /** Which blocks a consumer's step changes, and which parts of the state it leaves alone. */
  ghost predicate Changes<T(!new)>(s: State<T>, s': State<T>, t: Tid)
    requires t in s.stages
  {
    var g := s.stages[t];
    && s'.producer == s.producer && s'.slots == s.slots && s'.c.tail == s.c.tail
    && (s'.emptied == s.emptied ||
          (g.SetEmpty? && g.b in s'.emptied && s'.emptied == s.emptied[g.b := s'.emptied[g.b]]))
    && (s'.place == s.place
        || (g.ClearEntry? && s'.place == s.place[g.b := Held(t)])
        || (g.FreeBlock? && s'.place == s.place[g.b := Free]))
  }

  lemma ConsumeChanges<T(!new)>(s: State<T>, t: Tid)
    requires CanConsume(s, t)
    ensures Changes(s, Consume(s, t), t)
  {
    hide Consume, Changes;
    if s.stages[t].SetEmpty? { SetEmptyChanges(s, t); }
    else if s.stages[t].ClearEntry? || s.stages[t].FreeBlock? { RemovalChanges(s, t); }
    else { QuietChanges(s, t); }
  }

  lemma SetEmptyChanges<T(!new)>(s: State<T>, t: Tid)
    requires CanConsume(s, t) && s.stages[t].SetEmpty?
    ensures Changes(s, Consume(s, t), t)
  {
    CounterFrame(s.c, t);
    hide C.Step;
  }

  lemma RemovalChanges<T(!new)>(s: State<T>, t: Tid)
    requires CanConsume(s, t) && (s.stages[t].ClearEntry? || s.stages[t].FreeBlock?)
    ensures Changes(s, Consume(s, t), t)
  {
    CounterFrame(s.c, t);
    hide C.Step;
  }

  lemma QuietChanges<T(!new)>(s: State<T>, t: Tid)
    requires CanConsume(s, t) && !s.stages[t].SetEmpty? && !s.stages[t].ClearEntry? && !s.stages[t].FreeBlock?
    ensures Changes(s, Consume(s, t), t)
  {
    CounterFrame(s.c, t);
    hide C.Step;
  }

  /** The block that a consumer changes is not with the producer. */
  lemma OwnBlock<T(!new)>(s: State<T>, t: Tid)
    requires BlocksOk(s) && ThreadsOk(s) && t in s.stages && t in s.c.pcs
    ensures var g := s.stages[t];
            g.SetEmpty? || g.ClearEntry? || g.FreeBlock? ==> g.b in s.place && !s.place[g.b].Claimed?
  {
    hide DoneIn;
    if s.c.pcs[t].Taken? { assert ThreadOk(s, t); }
  }

  lemma ConsumeLeak<T(!new)>(s: State<T>, t: Tid)
    requires Inv(s) && NoLeak(s) && CanConsume(s, t)
    ensures NoLeak(Consume(s, t))
  {
    hide C.Inv, C.Step, DoneIn, SlotsOk, HistoryOk, ProducerOk, NoLeak, Consume;
    if s.stages[t].SetEmpty? {
      EmptyLeak(s, t);
    } else if s.stages[t].ClearEntry? {
      ClearLeak(s, t);
    } else {
      OtherLeak(s, t);
    }
  }

  lemma EmptyLeak<T(!new)>(s: State<T>, t: Tid)
    requires BlocksOk(s) && ThreadsOk(s) && NoLeak(s) && CanConsume(s, t) && s.stages[t].SetEmpty?
    ensures NoLeak(Consume(s, t))
  {
    hide C.Step, DoneIn;
    CounterFrame(s.c, t);
    assert ThreadOk(s, t);
    hide ThreadsOk;
    var s' := Consume(s, t);
    forall n: nat | n in s'.index && |DoneIn(s'.done, n)| == BLOCK_SIZE ensures exists u :: Clearing(s', u, n) {
      DoneAdd(s.done, s.c.pcs[t].index, n);
      if |DoneIn(s.done, n)| == BLOCK_SIZE {
        var u :| Clearing(s, u, n);
        assert Clearing(s', u, n);
      } else {
        assert Clearing(s', t, n);
      }
    }
  }

  lemma ClearLeak<T(!new)>(s: State<T>, t: Tid)
    requires ThreadsOk(s) && NoLeak(s) && CanConsume(s, t) && s.stages[t].ClearEntry?
    ensures NoLeak(Consume(s, t))
  {
    hide C.Step, DoneIn;
    ClearShape(s, t, s.c.pcs[t].index / BLOCK_SIZE);
    hide Consume;
    var s' := Consume(s, t);
    forall n: nat | n in s'.index && |DoneIn(s'.done, n)| == BLOCK_SIZE ensures exists u :: Clearing(s', u, n) {
      var u :| Clearing(s, u, n);
      assert Clearing(s', u, n);
    }
  }

  lemma OtherLeak<T(!new)>(s: State<T>, t: Tid)
    requires NoLeak(s) && CanConsume(s, t) && !s.stages[t].SetEmpty? && !s.stages[t].ClearEntry?
    ensures NoLeak(Consume(s, t))
  {
    hide C.Step, DoneIn;
    CounterFrame(s.c, t);
    var s' := Consume(s, t);
    forall n: nat | n in s'.index && |DoneIn(s'.done, n)| == BLOCK_SIZE ensures exists u :: Clearing(s', u, n) {
      var u :| Clearing(s, u, n);
      assert Clearing(s', u, n);
    }
  }

  lemma ConsumeDrop<T(!new)>(s: State<T>, t: Tid)
    requires Inv(s) && NoneDropped(s) && CanConsume(s, t)
    ensures NoneDropped(Consume(s, t))
  {
    hide C.Inv, C.Step, DoneIn, SlotsOk, HistoryOk, ProducerOk, BlocksOk;
    if s.c.pcs[t].Taken? { assert ThreadOk(s, t); }
    hide ThreadsOk, NoneDropped;
    if s.stages[t].Counting? { CountingDrop(s, t); } else { TakenDrop(s, t); }
  }

  lemma CountingDrop<T(!new)>(s: State<T>, t: Tid)
    requires NoneDropped(s) && CanConsume(s, t) && s.stages[t].Counting?
    ensures NoneDropped(Consume(s, t))
  {
    CounterFrame(s.c, t);
    HeadStep(s.c, t);
    hide C.Step;
    var s' := Consume(s, t);
    forall i: nat | i < s'.c.head && i !in s'.done ensures exists u :: Carries(s'.c, u, i) {
      if i < s.c.head {
        var u :| Carries(s.c, u, i);
        assert Carries(s'.c, u, i);
      } else {
        assert Carries(s'.c, t, i);
      }
    }
  }

  /** A consumer lets go of its index only when the index is done. */
  lemma TakenDrop<T(!new)>(s: State<T>, t: Tid)
    requires NoneDropped(s) && CanConsume(s, t) && !s.stages[t].Counting? && ThreadOk(s, t)
    ensures NoneDropped(Consume(s, t))
  {
    CounterFrame(s.c, t);
    hide C.Step, DoneIn;
    var s' := Consume(s, t);
    forall i: nat | i < s'.c.head && i !in s'.done ensures exists u :: Carries(s'.c, u, i) {
      var u :| Carries(s.c, u, i);
      assert Carries(s'.c, u, i);
    }
  }

  lemma HeadStep(c: C.State, t: Tid)
    requires t in c.pcs
    ensures C.Step(c, t).head == if c.pcs[t].Take? then c.head + 1 else c.head
    ensures c.pcs[t].Take? ==> C.Step(c, t).pcs[t] == C.Taken(c.head)
  {
  }

  lemma ConsumeTidy<T(!new)>(s: State<T>, t: Tid)
    requires Inv(s) && Tidy(s) && CanConsume(s, t)
    ensures Tidy(Consume(s, t))
  {
    ConsumeClaim(s, t);
    ConsumeLeak(s, t);
    ConsumeDrop(s, t);
    C.StepConserves(s.c, t);
    hide ClaimOk, NoLeak, NoneDropped, Inv, C.Conserved;
    ConsumeCounters(s, t);
  }

  lemma ConsumeCounters<T(!new)>(s: State<T>, t: Tid)
    requires CanConsume(s, t)
    ensures Consume(s, t).c == s.c || Consume(s, t).c == C.Step(s.c, t)
  {
    hide C.Step;
    match s.stages[t]
    case Counting =>
    case Find =>
    case Read(_) =>
    case SetEmpty(_, _) =>
    case ClearEntry(_) =>
    case FreeBlock(_) =>
    case Crash =>
  }

  /**
    At rest, all counters agree: exactly the indices below the head are done, all numbers are
    accounted for, and the blocks of the index are those that still have something to give.
   */
  lemma Quiescent<T(!new)>(s: State<T>)
    requires Inv(s) && Tidy(s) && forall t :: t in s.c.pcs ==> s.c.pcs[t].Idle?
    ensures forall i: nat :: i in s.done <==> i < s.c.head
    ensures |s.c.granted| == s.c.head && s.c.optimistic == s.c.head + s.c.overcommit
    ensures forall n :: n in s.index ==> exists k: nat :: k / BLOCK_SIZE == n && k >= s.c.head
    ensures forall b :: b in s.place && !s.place[b].Free? && !s.place[b].Claimed? ==>
            s.place[b].InUse? && s.place[b].number in s.index
  {
    hide C.Inv, DoneIn, SlotsOk, ProducerOk;
    C.Quiescent(s.c);
    forall n | n in s.index ensures exists k: nat :: k / BLOCK_SIZE == n && k >= s.c.head {
      assert forall t :: !Clearing(s, t, n);
      if forall k: nat :: k / BLOCK_SIZE == n ==> k < s.c.head {
        FullBlock(s.done, n);
        assert false;
      }
    }
  }

  /** All elements of block number `n` are gone. */
  ghost predicate BlockDone(done: set<nat>, n: nat) { forall k: nat :: k / BLOCK_SIZE == n ==> k in done }

  lemma NotFull(done: set<nat>, n: nat)
    requires !BlockDone(done, n)
    ensures |DoneIn(done, n)| < BLOCK_SIZE
  {
    AllDone(done, n);
  }

  lemma FullBlock(done: set<nat>, n: nat)
    requires BlockDone(done, n)
    ensures |DoneIn(done, n)| == BLOCK_SIZE
  {
    SegmentSize(n * BLOCK_SIZE, BLOCK_SIZE);
    assert DoneIn(done, n) == Segment(n * BLOCK_SIZE, BLOCK_SIZE);
  }

  // ----- whole runs

  /** `Refused` is an enqueue that fails because no block, or no place in the index, is to be had. */
  datatype Event<T> = Produced(x: T, b: Block) | Refused | Consumed(t: Tid)

  ghost predicate Enabled<T(!new)>(s: State<T>, e: Event<T>)
  {
    match e
    case Produced(_, b) => CanProduce(s, b) && (s.producer.Writing? ==> s.tailBlock in s.slots)
    case Refused => s.producer.Ready? && s.c.tail % BLOCK_SIZE == 0
    case Consumed(t) => CanConsume(s, t)
  }

  function After<T(!new)>(s: State<T>, e: Event<T>): State<T>
    requires Enabled(s, e)
  {
    match e
    case Produced(x, b) => Produce(s, x, b)
    case Refused => s
    case Consumed(t) => Consume(s, t)
  }

  /** An empty queue with no block in use and all consumers idle. */
  ghost predicate Init<T(!new)>(s: State<T>)
  {
    && s.c == C.State(0, 0, 0, 0, s.c.pcs, map[], {}) && s.producer.Ready? && s.stages.Keys == s.c.pcs.Keys
    && (forall t :: t in s.stages ==> s.stages[t].Counting? && s.c.pcs[t].Idle?)
    && s.index == map[] && s.slots.Keys == s.emptied.Keys == s.place.Keys
    && (forall b :: b in s.place ==> s.place[b].Free?)
    && s.items == [] && s.done == {} && s.got == map[]
  }

  ghost predicate IsRun<T(!new)>(states: seq<State<T>>, events: seq<Event<T>>)
  {
    && |states| == |events| + 1 && Init(states[0])
    && forall i :: 0 <= i < |events| ==> Enabled(states[i], events[i]) && states[i + 1] == After(states[i], events[i])
  }

  lemma InitInv<T(!new)>(s: State<T>)
    requires Init(s)
    ensures Inv(s) && Tidy(s)
  {
    assert C.Takers(s.c.pcs) == {} && C.Drawing(s.c.pcs) == {};
  }

  lemma {:induction false} RunInv<T(!new)>(states: seq<State<T>>, events: seq<Event<T>>, i: nat)
    requires IsRun(states, events) && i < |states|
    ensures Inv(states[i]) && Tidy(states[i])
  {
    hide Inv, Tidy, Init, Enabled;
    if i == 0 {
      InitInv(states[0]);
    } else {
      RunInv(states, events, i - 1);
      var k := i - 1;
      assert states[k + 1] == After(states[k], events[k]);
      EventKeeps(states[k], events[k]);
    }
  }

  lemma EventKeeps<T(!new)>(s: State<T>, e: Event<T>)
    requires Inv(s) && Tidy(s) && Enabled(s, e)
    ensures Inv(After(s, e)) && Tidy(After(s, e))
  {
    TidyClaim(s);
    hide Inv, Tidy, ClaimOk;
    match e
    case Produced(x, b) =>
      ProduceInv(s, x, b);
      ProduceTidy(s, x, b);
    case Refused =>
    case Consumed(t) =>
      ConsumeInv(s, t);
      ConsumeTidy(s, t);
  }

  /** A step that is enabled in some sense always is: the machine has no stuck or undefined state. */
  lemma AlwaysDefined<T(!new)>(s: State<T>, t: Tid)
    requires Inv(s) && t in s.stages
    ensures CanConsume(s, t)
  {
    ConsumeInv(s, t);
  }

  /** The enqueue's argument, if this event begins one. */
  function Begun<T(!new)>(s: State<T>, e: Event<T>): seq<T>
  {
    if e.Produced? && s.producer.Ready? then [e.x] else []
  }

  /** The arguments of the first `i` events that begin an enqueue, in order. */
  ghost function Offered<T(!new)>(states: seq<State<T>>, events: seq<Event<T>>, i: nat): seq<T>
    requires i <= |events| && i < |states|
  {
    if i == 0 then [] else Offered(states, events, i - 1) + Begun(states[i - 1], events[i - 1])
  }

  /** The element that the producer has not yet stored. */
  function InHand<T>(p: Producer<T>): seq<T>
  {
    match p
    case Acquired(e, _) => [e]
    case Prepared(e, _) => [e]
    case Writing(e) => [e]
    case _ => []
  }

  lemma BegunKept<T(!new)>(s: State<T>, e: Event<T>)
    requires Enabled(s, e)
    ensures After(s, e).items + InHand(After(s, e).producer) == s.items + InHand(s.producer) + Begun(s, e)
  {
    if e.Consumed? { ConsumeItems(s, e.t); }
  }

  lemma ConsumeItems<T(!new)>(s: State<T>, t: Tid)
    requires CanConsume(s, t)
    ensures Consume(s, t).items == s.items && Consume(s, t).producer == s.producer
  {
    hide C.Step;
    match s.stages[t]
    case Counting =>
    case Find =>
    case Read(_) =>
    case SetEmpty(_, _) =>
    case ClearEntry(_) =>
    case FreeBlock(_) =>
    case Crash =>
  }

  /** In every run, what was stored and what is about to be are the arguments of the enqueues, in order. */
  lemma {:induction false} StoredIsOffered<T(!new)>(states: seq<State<T>>, events: seq<Event<T>>, i: nat)
    requires IsRun(states, events) && i < |states|
    ensures Offered(states, events, i) == states[i].items + InHand(states[i].producer)
  {
    hide Enabled, After, InHand, Begun;
    if i == 0 {
      assert InHand(states[0].producer) == [] by { NothingInHand(states[0].producer); }
    } else {
      var k := i - 1;
      StoredIsOffered(states, events, k);
      assert Enabled(states[k], events[k]) && states[k + 1] == After(states[k], events[k]);
      BegunKept(states[k], events[k]);
    }
  }

  lemma NothingInHand<T>(p: Producer<T>)
    requires p.Ready?
    ensures InHand(p) == []
  {
  }

  /**
    In no interleaving does a consumer look up a missing block or read an unwritten slot; the
    element handed out at an index is the argument of the enqueue of that number, and no two
    consumers hold one index.
   */
  lemma EveryReadIsRight<T(!new)>(states: seq<State<T>>, events: seq<Event<T>>, i: nat, t: Tid, u: Tid)
    requires IsRun(states, events) && i < |states| && t in states[i].stages && u in states[i].stages
    ensures var s, offered := states[i], Offered(states, events, i);
            && t in s.c.pcs && u in s.c.pcs
            && !s.stages[t].Crash?
            && s.c.head <= s.c.tail <= |offered|
            && (s.c.pcs[t].Taken? ==> s.c.pcs[t].index < s.c.tail)
            && (s.stages[t].SetEmpty? ==> s.c.pcs[t].Taken? && s.stages[t].element == offered[s.c.pcs[t].index])
            && (t != u && s.c.pcs[t].Taken? && s.c.pcs[u].Taken? ==> s.c.pcs[t].index != s.c.pcs[u].index)
            && (forall k :: k in s.got ==> k < |offered| && s.got[k] == offered[k])
  {
    RunInv(states, events, i);
    StoredIsOffered(states, events, i);
    hide IsRun, Offered, InHand, Inv;
    ReadIsRight(states[i], t, u);
  }

  lemma ReadIsRight<T(!new)>(s: State<T>, t: Tid, u: Tid)
    requires Inv(s) && t in s.stages && u in s.stages
    ensures && t in s.c.pcs && u in s.c.pcs
            && !s.stages[t].Crash?
            && s.c.head <= s.c.tail <= |s.items|
            && (s.c.pcs[t].Taken? ==> s.c.pcs[t].index < s.c.tail)
            && (s.stages[t].SetEmpty? ==> s.c.pcs[t].Taken? && s.stages[t].element == s.items[s.c.pcs[t].index])
            && (t != u && s.c.pcs[t].Taken? && s.c.pcs[u].Taken? ==> s.c.pcs[t].index != s.c.pcs[u].index)
            && (forall k :: k in s.got ==> k < |s.items| && s.got[k] == s.items[k])
  {
    hide SlotsOk, BlocksOk;
    if s.c.pcs[t].Taken? { assert ThreadOk(s, t); DrawnIsBelow(s.c, t); }
    if t != u && s.c.pcs[t].Taken? && s.c.pcs[u].Taken? { OtherIndex(s, t, u); }
    C.DrawnIsPublished(s.c);
  }

  /** With this step `set_empty` reports that block number `n` is empty. */
  predicate Empties<T(!new)>(s: State<T>, e: Event<T>, n: nat)
  {
    && e.Consumed? && e.t in s.stages && e.t in s.c.pcs && s.c.pcs[e.t].Taken? && s.stages[e.t].SetEmpty?
    && s.stages[e.t].b in s.emptied && s.emptied[s.stages[e.t].b] == BLOCK_SIZE - 1
    && s.c.pcs[e.t].index / BLOCK_SIZE == n
  }

  lemma EmptiesAll<T(!new)>(s: State<T>, e: Event<T>, n: nat)
    requires Inv(s) && Enabled(s, e) && Empties(s, e, n)
    ensures forall k: nat :: k / BLOCK_SIZE == n ==> k in After(s, e).done
  {
    hide C.Inv;
    assert ThreadOk(s, e.t);
    DoneAdd(s.done, s.c.pcs[e.t].index, n);
    AllDone(After(s, e).done, n);
  }

  lemma {:induction false} DoneGrows<T(!new)>(states: seq<State<T>>, events: seq<Event<T>>, i: nat, j: nat)
    requires IsRun(states, events) && i <= j < |states|
    ensures states[i].done <= states[j].done
    decreases j
  {
    hide Enabled, Init, Produce, Consume;
    if i < j {
      DoneGrows(states, events, i, j - 1);
      var k := j - 1;
      assert states[k + 1] == After(states[k], events[k]);
      DoneGrowsStep(states[k], events[k]);
    }
  }

  lemma DoneGrowsStep<T(!new)>(s: State<T>, e: Event<T>)
    requires Enabled(s, e)
    ensures s.done <= After(s, e).done
  {
    hide C.Step, Produce, Consume;
    match e
    case Produced(x, b) => assert Produce(s, x, b).done == s.done by { ProduceDone(s, x, b); }
    case Refused =>
    case Consumed(t) => assert s.done <= Consume(s, t).done by { ConsumeDone(s, t); }
  }

  lemma ProduceDone<T(!new)>(s: State<T>, x: T, b: Block)
    requires CanProduce(s, b) && (s.producer.Writing? ==> s.tailBlock in s.slots)
    ensures Produce(s, x, b).done == s.done
  {
    match s.producer
    case Ready =>
    case Acquired(_, _) =>
    case Prepared(_, _) =>
    case Writing(_) =>
    case Publishing =>
  }

  lemma ConsumeAdds<T(!new)>(s: State<T>, t: Tid)
    requires CanConsume(s, t)
    ensures Consume(s, t).done == if s.stages[t].SetEmpty? then s.done + {s.c.pcs[t].index} else s.done
  {
    hide C.Step;
    match s.stages[t]
    case Counting =>
    case Find =>
    case Read(_) =>
    case SetEmpty(_, _) =>
    case ClearEntry(_) =>
    case FreeBlock(_) =>
    case Crash =>
  }

  lemma ConsumeDone<T(!new)>(s: State<T>, t: Tid)
    requires CanConsume(s, t)
    ensures s.done <= Consume(s, t).done
  {
    hide Consume;
    ConsumeAdds(s, t);
  }

  /** Only counting a slot as emptied adds to the emptied slots of a block; the last one gets the answer. */
  lemma LastEmpties<T(!new)>(s: State<T>, e: Event<T>, n: nat)
    requires Inv(s) && Enabled(s, e)
    requires BlockDone(After(s, e).done, n) && !BlockDone(s.done, n)
    ensures Empties(s, e, n)
  {
    hide C.Inv, C.Step, DoneIn, SlotsOk, HistoryOk, ProducerOk, BlockDone, Produce, Consume;
    match e
    case Produced(x, b) => ProduceDone(s, x, b);
    case Refused =>
      assert false;
    case Consumed(t) =>
      ConsumeAdds(s, t);
      if s.stages[t].SetEmpty? {
        assert ThreadOk(s, t);
        FullBlock(After(s, e).done, n);
        NotFull(s.done, n);
        DoneAdd(s.done, s.c.pcs[t].index, n);
      }
  }

  /** Once all its elements are gone, some consumer got the answer for a block. */
  lemma {:induction false} EmptiedAtLeastOnce<T(!new)>(states: seq<State<T>>, events: seq<Event<T>>, n: nat, j: nat)
    requires IsRun(states, events) && j < |states| && BlockDone(states[j].done, n)
    ensures exists i :: 0 <= i < j && Empties(states[i], events[i], n)
  {
    hide Empties, Enabled, Produce, Consume, BlockDone;
    if j == 0 {
      NothingAtStart(states, events, n);
      assert false;
    } else {
      RunInv(states, events, j - 1);
      var k := j - 1;
      assert states[k + 1] == After(states[k], events[k]) && Enabled(states[k], events[k]);
      if BlockDone(states[k].done, n) {
        EmptiedAtLeastOnce(states, events, n, k);
      } else {
        LastEmpties(states[k], events[k], n);
      }
    }
  }

  lemma NothingAtStart<T(!new)>(states: seq<State<T>>, events: seq<Event<T>>, n: nat)
    requires IsRun(states, events)
    ensures !BlockDone(states[0].done, n)
  {
    assert n * BLOCK_SIZE / BLOCK_SIZE == n && n * BLOCK_SIZE !in states[0].done;
  }

  /** `set_empty` returns true exactly once for a block whose elements are all gone. */
  lemma EmptiedExactlyOnce<T(!new)>(states: seq<State<T>>, events: seq<Event<T>>, n: nat, j: nat)
    requires IsRun(states, events) && j < |states| && BlockDone(states[j].done, n)
    ensures exists i :: 0 <= i < j && Empties(states[i], events[i], n)
                        && forall m :: 0 <= m < |events| && Empties(states[m], events[m], n) ==> m == i
  {
    hide Empties, IsRun, BlockDone;
    RunLength(states, events);
    EmptiedAtLeastOnce(states, events, n, j);
    var i :| 0 <= i < j && Empties(states[i], events[i], n);
    forall m | 0 <= m < |events| && Empties(states[m], events[m], n) ensures m == i {
      if i < m { EmptiedOnce(states, events, n, i, m); }
      if m < i { EmptiedOnce(states, events, n, m, i); }
    }
  }

  lemma RunLength<T(!new)>(states: seq<State<T>>, events: seq<Event<T>>)
    requires IsRun(states, events)
    ensures |states| == |events| + 1
  {
  }

  /** `set_empty` returns true once per block, and then every slot of the block has been emptied. */
  lemma EmptiedOnce<T(!new)>(states: seq<State<T>>, events: seq<Event<T>>, n: nat, i: nat, j: nat)
    requires IsRun(states, events) && i < j < |events| && Empties(states[i], events[i], n)
    ensures forall k: nat :: k / BLOCK_SIZE == n ==> k in states[j].done
    ensures !Empties(states[j], events[j], n)
  {
    RunInv(states, events, i);
    RunInv(states, events, j);
    assert states[i + 1] == After(states[i], events[i]);
    EmptiesAll(states[i], events[i], n);
    DoneGrows(states, events, i + 1, j);
    if Empties(states[j], events[j], n) { assert ThreadOk(states[j], events[j].t); }
  }
}
