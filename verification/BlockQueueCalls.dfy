/**
  What an enqueue and a dequeue come to if their thread runs alone: nothing that is there is
  refused, and what is enqueued is what comes out.
 */
module BlockQueueCalls {
  import C = DequeueCounters
  import opened BlockQueue

  /** `n` steps of one consumer while nobody else moves. */
  ghost function Dequeueing<T(!new)>(s: State<T>, t: Tid, n: nat): State<T>
  {
    if n == 0 then s
    else
      var before := Dequeueing(s, t, n - 1);
      if CanConsume(before, t) then Consume(before, t) else before
  }

  lemma OneStep<T(!new)>(s: State<T>, t: Tid, n: nat)
    ensures Dequeueing(s, t, 0) == s
    ensures var before := Dequeueing(s, t, n);
            CanConsume(before, t) ==> Dequeueing(s, t, n + 1) == Consume(before, t)
  {
  }

  lemma {:induction false} DequeueingInv<T(!new)>(s: State<T>, t: Tid, n: nat)
    requires Inv(s) && t in s.stages
    ensures var r := Dequeueing(s, t, n); Inv(r) && t in r.stages && CanConsume(r, t)
  {
    hide Inv, CanConsume, Consume;
    AlwaysDefined(s, t);
    if n > 0 {
      DequeueingInv(s, t, n - 1);
      var before := Dequeueing(s, t, n - 1);
      ConsumeInv(before, t);
      StillThere(before, t);
      AlwaysDefined(Consume(before, t), t);
    }
  }

  lemma StillThere<T(!new)>(s: State<T>, t: Tid)
    requires t in s.stages && CanConsume(s, t)
    ensures t in Consume(s, t).stages
  {
    hide C.Step;
    match s.stages[t]
    case Counting =>
    case Find =>
    case Read(_) =>
    case SetEmpty(_, _) =>
    case ClearEntry(_) =>
    case FreeBlock(_) =>
    case Crash =>
  }

  /** While it has no index, a consumer's steps are those of the counters. */
  lemma CountingSteps<T(!new)>(s: State<T>, t: Tid, n: nat)
    requires CanConsume(s, t) && s.stages[t].Counting? && t in s.c.pcs
    requires forall k: nat :: k < n ==> !C.Alone(s.c, t, k).pcs[t].Taken?
    ensures var c := C.Alone(s.c, t, n);
            Dequeueing(s, t, n) == s.(c := c, stages := s.stages[t := if c.pcs[t].Taken? then Find else Counting])
  {
    hide C.Step;
    if n == 0 {
      assert s.stages[t := Counting] == s.stages;
    } else {
      CountingSteps(s, t, n - 1);
      C.OneMore(s.c, t, n - 1);
      assert !C.Alone(s.c, t, n - 1).pcs[t].Taken?;
      assert s.stages[t := Counting] == s.stages;
    }
  }

  /** The consumer finds the block of its index. */
  lemma Finds<T(!new)>(s: State<T>, t: Tid)
    requires Inv(s) && t in s.stages && CanConsume(s, t) && s.stages[t].Find?
    ensures var n := s.c.pcs[t].index / BLOCK_SIZE;
            n in s.index && Consume(s, t) == s.(stages := s.stages[t := Read(s.index[n])])
  {
    ConsumeInv(s, t);
    NoCrash(Consume(s, t), t);
    hide Inv;
  }

  lemma NoCrash<T(!new)>(s: State<T>, t: Tid)
    requires Inv(s) && t in s.stages
    ensures !s.stages[t].Crash?
  {
    ReadIsRight(s, t, t);
  }

  /** It reads the element that was stored for its index. */
  lemma Reads<T(!new)>(s: State<T>, t: Tid)
    requires Inv(s) && t in s.stages && CanConsume(s, t) && s.stages[t].Read?
    ensures var i := s.c.pcs[t].index;
            && i < |s.items|
            && Consume(s, t) == s.(stages := s.stages[t := SetEmpty(s.stages[t].b, s.items[i])])
  {
    ConsumeInv(s, t);
    var s' := Consume(s, t);
    assert t in s'.stages by { StillThere(s, t); }
    ReadIsRight(s', t, t);
    hide Inv;
  }

  /** All slots of the block of index `i` are emptied once that of `i` is. */
  ghost predicate IsLast<T(!new)>(s: State<T>, i: nat) { BlockDone(s.done + {i}, i / BLOCK_SIZE) }

  /** It hands the element out, and keeps at it exactly if it has emptied the block. */
  lemma HandsOut<T(!new)>(s: State<T>, t: Tid)
    requires Inv(s) && t in s.stages && CanConsume(s, t) && s.stages[t].SetEmpty?
    ensures var s', i := Consume(s, t), s.c.pcs[t].index;
            && s'.got == s.got[i := s.stages[t].element] && s'.done == s.done + {i} && s'.items == s.items
            && s'.index == s.index && s'.place == s.place
            && (if IsLast(s, i) then s'.c == s.c && s'.stages[t] == ClearEntry(s.stages[t].b)
                else s'.c == C.Step(s.c, t) && s'.stages[t] == Counting)
  {
    hide C.Step, C.Inv;
    var i := s.c.pcs[t].index;
    assert ThreadOk(s, t);
    var n := i / BLOCK_SIZE;
    DoneAdd(s.done, i, n);
    if IsLast(s, i) { FullBlock(s.done + {i}, n); } else { NotFull(s.done + {i}, n); }
    hide IsLast, DoneIn, SlotsOk;
  }

  /** The block is taken out of the index. */
  lemma Clears<T(!new)>(s: State<T>, t: Tid)
    requires Inv(s) && t in s.stages && CanConsume(s, t) && s.stages[t].ClearEntry?
    ensures var n, b := s.c.pcs[t].index / BLOCK_SIZE, s.stages[t].b;
            && n in s.index && s.index[n] == b
            && Consume(s, t) == s.(stages := s.stages[t := FreeBlock(b)], index := s.index - {n},
                                   place := s.place[b := Held(t)])
  {
    hide C.Step, C.Inv, DoneIn;
    assert ThreadOk(s, t);
    hide Inv;
  }

  /** And it is free for the next use. */
  lemma Frees<T(!new)>(s: State<T>, t: Tid)
    requires t in s.stages && CanConsume(s, t) && s.stages[t].FreeBlock?
    ensures Consume(s, t) == s.(stages := s.stages[t := Counting], c := C.Step(s.c, t),
                                place := s.place[s.stages[t].b := Free])
  {
    hide C.Step;
  }

  /** What a dequeue has done when it has handed out the element of index `i`. */
  ghost predicate HandedOut<T(!new)>(s: State<T>, r: State<T>, t: Tid, i: nat)
  {
    && i < |s.items| && r.got == s.got[i := s.items[i]] && r.done == s.done + {i} && r.items == s.items
    && t in r.stages && r.stages[t].Counting?
  }

  /**
    A consumer alone is given the element at the head if one is published there, and frees its
    block exactly if that was the last; and it changes nothing if none is published.
   */
  lemma LoneDequeue<T(!new)>(s: State<T>, t: Tid)
    requires Inv(s) && Tidy(s) && C.Resting(s.c) && t in s.stages
    ensures s.c.head >= s.c.tail ==> Dequeueing(s, t, 3) == s
    ensures s.c.head < s.c.tail ==>
              var i, n := s.c.head, s.c.head / BLOCK_SIZE;
              && n in s.index
              && (if IsLast(s, i) then
                    var r := Dequeueing(s, t, 11);
                    HandedOut(s, r, t, i) && r.c.head == i + 1 && r.index == s.index - {n}
                    && r.place == s.place[s.index[n] := Free]
                  else
                    var r := Dequeueing(s, t, 9);
                    HandedOut(s, r, t, i) && r.c.head == i + 1 && r.index == s.index && r.place == s.place)
  {
    hide Inv, Consume, CanConsume, C.Inv, C.Step, C.Alone, Tidy, IsLast, Dequeueing;
    Settled(s, t);
    if s.c.head >= s.c.tail {
      C.LoneDequeue(s.c, t);
      LoneMiss(s, t);
    } else {
      LoneHit(s, t);
    }
  }

  lemma Settled<T(!new)>(s: State<T>, t: Tid)
    requires Inv(s) && Tidy(s) && C.Resting(s.c) && t in s.stages
    ensures C.Inv(s.c) && C.Conserved(s.c) && t in s.c.pcs && s.stages[t].Counting? && CanConsume(s, t)
  {
    AlwaysDefined(s, t);
  }

  lemma LoneMiss<T(!new)>(s: State<T>, t: Tid)
    requires CanConsume(s, t) && s.stages[t].Counting? && t in s.c.pcs && s.c.pcs[t].Idle?
    requires C.Alone(s.c, t, 3) == s.c
    ensures Dequeueing(s, t, 3) == s
  {
    C.OneMore(s.c, t, 0); C.CameFrom(C.Alone(s.c, t, 0), t);
    C.OneMore(s.c, t, 1); C.CameFrom(C.Alone(s.c, t, 1), t);
    hide C.Alone, C.Step;
    CountingSteps(s, t, 3);
    assert s.stages[t := Counting] == s.stages;
  }

  /** After six steps the consumer has the index. */
  lemma LoneFind<T(!new)>(s: State<T>, t: Tid)
    requires Inv(s) && C.Inv(s.c) && C.Conserved(s.c) && C.Resting(s.c) && t in s.stages && t in s.c.pcs
    requires CanConsume(s, t) && s.stages[t].Counting? && s.c.head < s.c.tail
    ensures Dequeueing(s, t, 6) == s.(c := C.FirstTaken(s.c, t), stages := s.stages[t := Find])
  {
    hide Inv, Consume, CanConsume, C.Inv, C.Step, C.Alone, Dequeueing;
    C.LoneDequeue(s.c, t);
    forall k: nat | k < 6 ensures !C.Alone(s.c, t, k).pcs[t].Taken? { C.NotBefore(s.c, t, k); }
    CountingSteps(s, t, 6);
  }

  /** After eight it has the element. */
  lemma LoneRead<T(!new)>(s: State<T>, t: Tid)
    requires Inv(s) && C.Inv(s.c) && C.Conserved(s.c) && C.Resting(s.c) && t in s.stages && t in s.c.pcs
    requires CanConsume(s, t) && s.stages[t].Counting? && s.c.head < s.c.tail
    ensures var i, n := s.c.head, s.c.head / BLOCK_SIZE;
            && n in s.index && i < |s.items|
            && Dequeueing(s, t, 8) == s.(c := C.FirstTaken(s.c, t),
                                         stages := s.stages[t := SetEmpty(s.index[n], s.items[i])])
  {
    hide Inv, Consume, CanConsume, C.Inv, C.Conserved, C.Resting, Dequeueing;
    LoneFind(s, t);
    DequeueingInv(s, t, 6);
    DequeueingInv(s, t, 7);
    OneStep(s, t, 6);
    OneStep(s, t, 7);
    Finds(Dequeueing(s, t, 6), t);
    Reads(Dequeueing(s, t, 7), t);
    var n := s.c.head / BLOCK_SIZE;
    Overwrite(s.stages, t, Find, Read(s.index[n]));
    Overwrite(s.stages, t, Read(s.index[n]), SetEmpty(s.index[n], s.items[s.c.head]));
  }

  lemma Overwrite<T>(m: map<Tid, Stage<T>>, t: Tid, x: Stage<T>, y: Stage<T>)
    ensures m[t := x][t := y] == m[t := y]
  {
  }

  /** With the ninth step the element is handed out. */
  lemma LoneHandOut<T(!new)>(s: State<T>, t: Tid)
    requires Inv(s) && C.Inv(s.c) && C.Conserved(s.c) && C.Resting(s.c) && t in s.stages && t in s.c.pcs
    requires CanConsume(s, t) && s.stages[t].Counting? && s.c.head < s.c.tail
    ensures var i, n, r := s.c.head, s.c.head / BLOCK_SIZE, Dequeueing(s, t, 9);
            && n in s.index && i < |s.items| && r.got == s.got[i := s.items[i]] && r.done == s.done + {i}
            && r.items == s.items && r.index == s.index && r.place == s.place && r.c.head == i + 1
            && t in r.stages && t in r.c.pcs
            && (if IsLast(s, i) then r.stages[t] == ClearEntry(s.index[n]) && r.c.pcs[t] == C.Taken(i)
                else r.stages[t] == Counting)
  {
    hide Inv, Consume, CanConsume, C.Inv, C.Step, C.Alone, Dequeueing, IsLast;
    LoneRead(s, t);
    var s8 := Dequeueing(s, t, 8);
    DequeueingInv(s, t, 8);
    DequeueingInv(s, t, 9);
    OneStep(s, t, 8);
    HandsOut(s8, t);
    SameLast(s, s8, s.c.head);
    LetGo(s8.c, t);
  }

  lemma LoneHit<T(!new)>(s: State<T>, t: Tid)
    requires Inv(s) && C.Inv(s.c) && C.Conserved(s.c) && C.Resting(s.c) && t in s.stages && t in s.c.pcs
    requires CanConsume(s, t) && s.stages[t].Counting? && s.c.head < s.c.tail
    ensures var i, n := s.c.head, s.c.head / BLOCK_SIZE;
              && n in s.index
              && (if IsLast(s, i) then
                    var r := Dequeueing(s, t, 11);
                    HandedOut(s, r, t, i) && r.c.head == i + 1 && r.index == s.index - {n}
                    && r.place == s.place[s.index[n] := Free]
                  else
                    var r := Dequeueing(s, t, 9);
                    HandedOut(s, r, t, i) && r.c.head == i + 1 && r.index == s.index && r.place == s.place)
  {
    hide Inv, Consume, CanConsume, C.Inv, C.Step, C.Alone, Dequeueing, IsLast;
    LoneHandOut(s, t);
    if IsLast(s, s.c.head) { LoneFree(s, t, Dequeueing(s, t, 9)); }
  }

  lemma LoneFree<T(!new)>(s: State<T>, t: Tid, s9: State<T>)
    requires Inv(s) && t in s.stages && s9 == Dequeueing(s, t, 9)
    requires t in s9.stages && t in s9.c.pcs && s9.c.pcs[t].Taken? && s9.stages[t].ClearEntry?
    ensures var n, b, r := s9.c.pcs[t].index / BLOCK_SIZE, s9.stages[t].b, Dequeueing(s, t, 11);
            && r.got == s9.got && r.done == s9.done && r.items == s9.items && r.c.head == s9.c.head
            && r.index == s9.index - {n} && r.place == s9.place[b := Free] && t in r.stages && r.stages[t].Counting?
  {
    hide Inv, Consume, CanConsume, C.Inv, C.Step, Dequeueing;
    DequeueingInv(s, t, 9);
    DequeueingInv(s, t, 10);
    OneStep(s, t, 9);
    OneStep(s, t, 10);
    Clears(s9, t);
    Frees(Dequeueing(s, t, 10), t);
    LetGo(s9.c, t);
    PlaceAgain(s9.place, s9.stages[t].b, Held(t));
  }

  lemma PlaceAgain(place: map<Block, Where>, b: Block, w: Where)
    ensures place[b := w][b := Free] == place[b := Free]
  {
  }

  lemma SameLast<T(!new)>(s: State<T>, s': State<T>, i: nat)
    requires s.done == s'.done
    ensures IsLast(s, i) == IsLast(s', i)
  {
  }

  lemma LetGo(c: C.State, t: Tid)
    requires t in c.pcs && c.pcs[t].Taken?
    ensures C.Step(c, t).head == c.head && t in C.Step(c, t).pcs && C.Step(c, t).pcs[t] == C.Idle
  {
  }

  // ----- the producer alone

  /** `n` steps of the producer while no consumer moves; `x` and `b` are what the enqueue begins with. */
  ghost function Enqueueing<T(!new)>(s: State<T>, x: T, b: Block, n: nat): State<T>
  {
    if n == 0 then s
    else
      var before := Enqueueing(s, x, b, n - 1);
      if Enabled(before, Produced(x, b)) then Produce(before, x, b) else before
  }

  lemma OnePut<T(!new)>(s: State<T>, x: T, b: Block, n: nat)
    ensures Enqueueing(s, x, b, 0) == s
    ensures var before := Enqueueing(s, x, b, n);
            Enabled(before, Produced(x, b)) ==> Enqueueing(s, x, b, n + 1) == Produce(before, x, b)
  {
  }

  /** An element that is to be written is written and published with two more steps. */
  lemma WritesAndPublishes<T(!new)>(s: State<T>, x: T, b: Block, n: nat)
    requires var r := Enqueueing(s, x, b, n); r.producer.Writing? && r.tailBlock in r.slots
    ensures var w, r := Enqueueing(s, x, b, n), Enqueueing(s, x, b, n + 2);
            var o := w.c.tail % BLOCK_SIZE;
            r == w.(producer := Ready, c := C.Publish(w.c), items := w.items + [w.producer.element],
                    slots := w.slots[w.tailBlock := w.slots[w.tailBlock][o := w.producer.element]])
  {
    hide Enqueueing;
    OnePut(s, x, b, n);
    OnePut(s, x, b, n + 1);
  }

  /** How many steps an enqueue takes. */
  function EnqueueSteps<T>(s: State<T>): nat { if s.c.tail % BLOCK_SIZE == 0 then 5 else 3 }

  /** What a completed enqueue of `x` has changed. */
  ghost predicate Put<T(!new)>(s: State<T>, r: State<T>, x: T, b: Block)
  {
    var i, n := s.c.tail, s.c.tail / BLOCK_SIZE;
    && r.producer.Ready? && r.c == C.Publish(s.c) && |s.items| == i && r.items == s.items + [x] && Stored(r, i)
    && r.done == s.done && r.got == s.got && r.stages == s.stages
    && r.index == (if i % BLOCK_SIZE == 0 then s.index[n := b] else s.index)
    && r.place == (if i % BLOCK_SIZE == 0 then s.place[b := InUse(n)] else s.place)
  }

  /** The producer alone adds its argument behind the elements there are, in its slot, and publishes it. */
  lemma LoneEnqueue<T(!new)>(s: State<T>, x: T, b: Block)
    requires Inv(s) && s.producer.Ready? && CanProduce(s, b)
    ensures Put(s, Enqueueing(s, x, b, EnqueueSteps(s)), x, b)
  {
    hide Inv, Enqueueing, CanProduce, Put;
    TailBlock(s);
    if s.c.tail % BLOCK_SIZE != 0 { PutWithin(s, x, b); } else { PutAtStart(s, x, b); }
  }

  lemma PutWithin<T(!new)>(s: State<T>, x: T, b: Block)
    requires s.producer.Ready? && s.c.tail % BLOCK_SIZE != 0 && |s.items| == s.c.tail
    requires s.c.tail / BLOCK_SIZE in s.index && s.index[s.c.tail / BLOCK_SIZE] == s.tailBlock && s.tailBlock in s.slots
    ensures Put(s, Enqueueing(s, x, b, 3), x, b)
  {
    hide Enqueueing;
    OnePut(s, x, b, 0);
    BeginsWriting(s, x, b);
    WritesAndPublishes(s, x, b, 1);
  }

  lemma PutAtStart<T(!new)>(s: State<T>, x: T, b: Block)
    requires s.producer.Ready? && s.c.tail % BLOCK_SIZE == 0 && |s.items| == s.c.tail && CanProduce(s, b)
    ensures Put(s, Enqueueing(s, x, b, 5), x, b)
  {
    hide Enqueueing, Produce, Enabled, CanProduce;
    OnePut(s, x, b, 0);
    OnePut(s, x, b, 1);
    OnePut(s, x, b, 2);
    StartsBlock(s, x, b);
    WritesAndPublishes(s, x, b, 3);
  }

  lemma TailBlock<T(!new)>(s: State<T>)
    requires Inv(s) && s.producer.Ready?
    ensures |s.items| == s.c.tail
    ensures s.c.tail % BLOCK_SIZE != 0 ==>
              var n := s.c.tail / BLOCK_SIZE; n in s.index && s.index[n] == s.tailBlock && s.tailBlock in s.slots
  {
    hide C.Inv, DoneIn;
  }

  lemma BeginsWriting<T(!new)>(s: State<T>, x: T, b: Block)
    requires s.producer.Ready? && s.c.tail % BLOCK_SIZE != 0
    ensures Enabled(s, Produced(x, b)) && Produce(s, x, b) == s.(producer := Writing(x))
  {
  }

  /** At the start of a block: the three steps that get the block, reset it and store it in the index. */
  lemma StartsBlock<T(!new)>(s: State<T>, x: T, b: Block)
    requires s.producer.Ready? && s.c.tail % BLOCK_SIZE == 0 && CanProduce(s, b)
    ensures var k := s.c.tail / BLOCK_SIZE;
            && Enabled(s, Produced(x, b)) && var s1 := Produce(s, x, b);
            && Enabled(s1, Produced(x, b)) && var s2 := Produce(s1, x, b);
            && Enabled(s2, Produced(x, b)) && var s3 := Produce(s2, x, b);
            && s3.producer == Writing(x) && s3.tailBlock == b && b in s3.slots
            && s3 == s.(producer := Writing(x), tailBlock := b, index := s.index[k := b],
                        place := s.place[b := InUse(k)], slots := s3.slots, emptied := s3.emptied)
  {
    var s1 := Produce(s, x, b);
    assert s1.producer == Acquired(x, b);
    var s2 := Produce(s1, x, b);
    assert s.place[b := Claimed][b := InUse(s.c.tail / BLOCK_SIZE)] == s.place[b := InUse(s.c.tail / BLOCK_SIZE)];
  }

  lemma {:induction false} EnqueueingInv<T(!new)>(s: State<T>, x: T, b: Block, n: nat)
    requires Inv(s) && Tidy(s)
    ensures var r := Enqueueing(s, x, b, n); Inv(r) && Tidy(r)
  {
    hide Inv, Tidy, Enabled;
    if n > 0 {
      EnqueueingInv(s, x, b, n - 1);
      var before := Enqueueing(s, x, b, n - 1);
      if Enabled(before, Produced(x, b)) { EventKeeps(before, Produced(x, b)); }
    }
  }

  /** What is enqueued on a queue that is empty and at rest is what the next dequeue hands out. */
  lemma RoundTrip<T(!new)>(s: State<T>, x: T, b: Block, t: Tid)
    requires Inv(s) && Tidy(s) && s.producer.Ready? && CanProduce(s, b) && C.Resting(s.c) && t in s.stages
    requires s.c.head == s.c.tail
    ensures var i, full := s.c.tail, Enqueueing(s, x, b, EnqueueSteps(s));
            var r := Dequeueing(full, t, if IsLast(full, i) then 11 else 9);
            i in r.got && r.got[i] == x && r.c.head == r.c.tail == i + 1
  {
    hide Inv, Tidy, Enqueueing, CanProduce, Dequeueing, IsLast, EnqueueSteps;
    LoneEnqueue(s, x, b);
    EnqueueingInv(s, x, b, EnqueueSteps(s));
    LoneDequeue(Enqueueing(s, x, b, EnqueueSteps(s)), t);
    TailKept(Enqueueing(s, x, b, EnqueueSteps(s)), t, 11);
    TailKept(Enqueueing(s, x, b, EnqueueSteps(s)), t, 9);
  }

  lemma {:induction false} TailKept<T(!new)>(s: State<T>, t: Tid, n: nat)
    ensures Dequeueing(s, t, n).c.tail == s.c.tail
  {
    hide CanConsume, Consume;
    if n > 0 {
      TailKept(s, t, n - 1);
      var before := Dequeueing(s, t, n - 1);
      if CanConsume(before, t) { ConsumeTail(before, t); }
    }
  }

  lemma ConsumeTail<T(!new)>(s: State<T>, t: Tid)
    requires CanConsume(s, t)
    ensures Consume(s, t).c.tail == s.c.tail
  {
    ConsumeCounters(s, t);
    hide Consume;
  }
}
