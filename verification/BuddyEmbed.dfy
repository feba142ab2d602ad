/**
  Creating an arena, and placing its metadata at the end of the memory it manages.
 */
module BuddyEmbed {
  import opened Basics
  import opened TreeShape
  import opened PowersOfTwo
  import opened BuddyArena

  const SIZEOF_WORD := 8
  const SIZEOF_BUDDY := 32
  const SIZEOF_TREE := 24

  ghost predicate IsPow2(v: nat) { exists k: nat :: v == Pow2(k) }

  /** The order of the tree for a number of leaves (`buddy_tree_order_for_memory`). */
  function OrderOf(blocks: nat): (r: nat)
    ensures r >= 1
  {
    if blocks <= 1 then 1 else BitLength(blocks - 1) + 1
  }

  lemma OrderIsCeiling(blocks: nat)
    requires blocks >= 1
    ensures IsCeiling(blocks, Pow2(OrderOf(blocks) - 1))
    ensures blocks <= Pow2(OrderOf(blocks) - 1) < 2 * blocks
  {
    if blocks > 1 { BitLengthBounds(blocks - 1); }
    Ceiling(blocks, Pow2(OrderOf(blocks) - 1), OrderOf(blocks) - 1);
  }

  lemma {:induction false} BitLengthMonotone(a: nat, b: nat)
    requires a <= b
    ensures BitLength(a) <= BitLength(b)
  {
    if a > 0 { BitLengthMonotone(a / 2, b / 2); }
  }

  /**
    `buddy_init_alignment`: fails exactly when the alignment is not a power of two or the
    memory is smaller than one aligned slot; otherwise the arena starts empty.
   */
  method BuddyInit(memory: nat, alignment: nat) returns (b: Buddy?)
    requires memory <= WORD / 2 && alignment < WORD
    ensures b == null <==> !IsPow2(alignment) || memory < alignment
    ensures b != null ==>
              && b.Valid() && fresh(b) && fresh(b.tree) && fresh(b.tree.bits)
              && b.alignment == alignment && b.memorySize == memory - memory % alignment
              && b.tree.order == OrderOf(b.memorySize / alignment)
              && b.Blocks() == {}
  {
    hide *;
    var c := CeilingPowerOfTwo(alignment);
    AlignmentTest(alignment, c);
    if c != alignment {
      return null;
    }
    Blocks(memory, alignment);
    var size := memory - memory % alignment;
    if size < alignment {
      return null;
    }
    ghost var a := Log(alignment);
    var order := OrderForMemory(size, alignment, a);
    b := new Buddy(size, alignment, order, a);
    b.MaskVirtualSlots();
  }

  ghost function Log(v: nat): (a: nat)
    requires IsPow2(v)
    ensures v == Pow2(a)
  {
    var a: nat :| v == Pow2(a); a
  }

  /** `buddy_tree_order_for_memory` */
  method OrderForMemory(size: nat, alignment: nat, ghost a: nat) returns (order: nat)
    requires alignment == Pow2(a) && alignment <= size <= WORD / 2
    requires size / alignment * alignment == size && 1 <= size / alignment <= size
    ensures order == OrderOf(size / alignment)
    ensures size <= Pow2(order - 1) * alignment < 2 * size && Pow2(order - 1) * alignment <= WORD / 2
  {
    hide *;
    var blocks := size / alignment;
    var slots := CeilingPowerOfTwo(blocks);
    OrderIsCeiling(blocks);
    CeilingUnique(blocks, slots, Pow2(OrderOf(blocks) - 1));
    SizeBounds(blocks, alignment, a);
    order := HighestBitPosition(slots);
    Buddy.BitLengthPow2(OrderOf(blocks) - 1);
  }

  lemma AlignmentTest(alignment: nat, c: nat)
    requires alignment < WORD
    requires alignment <= WORD / 2 ==> IsCeiling(alignment, c)
    requires alignment > WORD / 2 ==> c < alignment
    ensures c == alignment <==> IsPow2(alignment)
    ensures IsPow2(alignment) ==> 1 <= alignment <= WORD / 2
  {
    if k: nat :| alignment == Pow2(k) {
      PowerTable();
      if alignment > WORD / 2 {
        if k <= 63 { Pow2Monotone(k, 63); } else { Pow2Monotone(64, k); }
      }
    }
  }

  lemma Blocks(memory: nat, alignment: nat)
    requires alignment >= 1
    ensures var size := memory - memory % alignment;
            size / alignment * alignment == size && size % alignment == 0 && size / alignment <= size <= memory
            && (memory < alignment <==> size < alignment) && (size >= alignment ==> size / alignment >= 1)
  {
    var q := memory / alignment;
    var size := memory - memory % alignment;
    assert size == q * alignment;
    Buddy.DivUnique(size, alignment, q);
    MulMonotone(1, alignment, q);
  }

  lemma SizeBounds(blocks: nat, alignment: nat, a: nat)
    requires blocks >= 1 && alignment == Pow2(a) && blocks * alignment <= WORD / 2
    ensures var e := Pow2(OrderOf(blocks) - 1) * alignment;
            blocks * alignment <= e < 2 * (blocks * alignment) && e <= WORD / 2 && Pow2(OrderOf(blocks) - 1) < WORD
  {
    hide OrderOf, Pow2;
    OrderIsCeiling(blocks);
    var p, k := Pow2(OrderOf(blocks) - 1), OrderOf(blocks) - 1 + a;
    Pow2Add(OrderOf(blocks) - 1, a);
    MulCancel(blocks, p, alignment);
    MulCancel(2 * blocks, p, alignment);
    assert 2 * (blocks * alignment) == (2 * blocks) * alignment;
    PowerTable();
    if k > 63 { Pow2Monotone(63, k - 1); Pow2Double(k); }
    Pow2Monotone(OrderOf(blocks) - 1, k);
    Buddy.Pow2Order(k, 63);
  }

  // ----- the metadata

  /** The bytes of the bitset, before and after padding. */
  function BitsetBytes(order: nat): nat { (TotalBits(order) + 7) / 8 }

  function PaddedBytes(order: nat): nat { BitsetBytes(order) + BitsetBytes(order) % SIZEOF_WORD }

  /** `buddy_tree_sizeof` */
  function TreeSizeof(order: nat): nat { SIZEOF_TREE + PaddedBytes(order) + (order + 2) * SIZEOF_WORD }

  /** The index, in words behind the tree header, of the first memoised offset. */
  function MemoIndex(order: nat): nat { PaddedBytes(order) / SIZEOF_WORD + 1 }

  /**
    The memo table lies behind the bitset and inside the metadata, although the padding added
    is the remainder of the division and so does not align the table.
   */
  lemma MemoFits(order: nat)
    ensures BitsetBytes(order) <= MemoIndex(order) * SIZEOF_WORD
    ensures SIZEOF_TREE + (MemoIndex(order) + order + 1) * SIZEOF_WORD <= TreeSizeof(order)
  {
  }

  /**
    The padding is not an alignment.  It makes the bitset a whole number of words exactly if
    the bitset was a whole number of half words, which depends on the order as stated.
   */
  lemma PaddingAligns(order: nat)
    ensures PaddedBytes(order) % SIZEOF_WORD == 0 <==> BitsetBytes(order) % 4 == 0
    ensures order >= 1 ==> (PaddedBytes(order) % SIZEOF_WORD == 0 <==> order >= 4 && (order + 2) % 32 < 8)
  {
    hide BitsetBytes;
    PadModulo(BitsetBytes(order));
    if order >= 1 { BytesByOrder(order); }
  }

  lemma Remainder(q: int, r: int, d: nat)
    requires d == 4 || d == 8
    ensures (d * q + r) % d == r % d
  {
  }

  lemma PadModulo(b: nat)
    ensures (b + b % SIZEOF_WORD) % SIZEOF_WORD == 0 <==> b % 4 == 0
  {
    var q, r := b / 8, b % 8;
    assert b + r == 8 * q + 2 * r && 0 <= r < 8;
    Remainder(q, 2 * r, 8);
    Remainder(2 * q, r, 4);
  }

  lemma BytesByOrder(order: nat)
    requires order >= 1
    ensures BitsetBytes(order) % 4 == 0 <==> order >= 4 && (order + 2) % 32 < 8
  {
    hide TotalBits, Pow2;
    FirstPowers();
    TotalBitsClosed(order);
    if order >= 4 {
      Pow2Add(5, order - 4);
      BytesModulo(order, Pow2(order - 4), TotalBits(order));
    }
  }

  lemma FirstPowers()
    ensures Pow2(1) == 2 && Pow2(2) == 4 && Pow2(3) == 8 && Pow2(4) == 16 && Pow2(5) == 32
  {
  }

  lemma BytesModulo(order: nat, p: nat, bits: nat)
    requires bits + order + 2 == 32 * p
    ensures (bits + 7) / 8 % 4 == 0 <==> (order + 2) % 32 < 8
  {
    var a, s := (order + 2) / 32, (order + 2) % 32;
    var t := (7 - s) / 8;
    assert bits + 7 == 8 * (4 * (p - a)) + (7 - s);
    assert (bits + 7) / 8 == 4 * (p - a) + t && -3 <= t <= 0 && (t == 0 <==> s < 8);
    Remainder(p - a, t, 4);
  }

  /** Orders on both sides of the condition. */
  lemma PaddingDoesNotAlign()
    ensures PaddedBytes(1) % SIZEOF_WORD != 0 && PaddedBytes(6) % SIZEOF_WORD != 0 && PaddedBytes(5) % SIZEOF_WORD == 0
  {
    PaddingAligns(1);
    PaddingAligns(5);
    PaddingAligns(6);
  }

  /** A tree of order `n + 1` has twice the bits of one of order `n`, plus `n + 1`. */
  lemma {:induction false} LevelShift(n: nat, d: nat)
    requires 1 <= d <= n + 1
    ensures LevelStart(n + 1, d + 1) == (n + 1) + 2 * LevelStart(n, d)
  {
    if d > 1 {
      LevelShift(n, d - 1);
      LevelNext(n, d - 1);
      LevelNext(n + 1, d);
      Pow2Double(d - 1);
      DoubleMul(n - d + 2, Pow2(d - 2));
    } else {
      LevelNext(n + 1, 1);
    }
  }

  lemma {:induction false} SizeofMonotone(a: nat, b: nat)
    requires a <= b
    ensures TreeSizeof(a) <= TreeSizeof(b)
    decreases b
  {
    if a < b {
      hide LevelStart;
      SizeofMonotone(a, b - 1);
      LevelShift(b - 1, b);
    }
  }

  /** `buddy_sizeof_alignment`, with 0 for invalid arguments. */
  function BuddySizeof(memory: nat, alignment: nat): nat
    requires alignment >= 1
  {
    if memory < alignment then 0 else SIZEOF_BUDDY + TreeSizeof(OrderOf(memory / alignment))
  }

  datatype EmbedCheck = CanFit(offset: nat, buddySize: nat) | CannotFit

  /** `buddy_embed_offset`: where the metadata goes. */
  function EmbedOffset(memory: nat, alignment: nat): EmbedCheck
    requires alignment >= 1
  {
    var size0 := BuddySizeof(memory, alignment);
    if size0 >= memory then CannotFit
    else
      var size := size0 + (memory - size0) % SIZEOF_WORD;
      if size >= memory then CannotFit else CanFit(memory - size, size)
  }

  /** The memory an arena manages, trimmed to the alignment. */
  function Trimmed(memory: nat, alignment: nat): nat
    requires alignment >= 1
  {
    memory - memory % alignment
  }

  /**
    An embedded arena never hands out its own metadata: the memory it manages ends where the
    metadata begins, and the metadata of that smaller arena ends inside the given memory.
   */
  lemma EmbeddedMetadataSafe(memory: nat, alignment: nat)
    requires alignment >= 1 && EmbedOffset(memory, alignment).CanFit?
    ensures var o := EmbedOffset(memory, alignment).offset;
            && 0 < o <= memory && o % SIZEOF_WORD == 0
            && Trimmed(o, alignment) <= o
            && o + BuddySizeof(Trimmed(o, alignment), alignment) <= memory
  {
    hide TreeSizeof, BitLength, Trimmed, OrderOf;
    var o := EmbedOffset(memory, alignment).offset;
    AlignedOffset(memory, BuddySizeof(memory, alignment));
    var managed := Trimmed(o, alignment);
    TrimmedSmaller(o, alignment);
    if managed >= alignment {
      DivMonotone(managed, memory, alignment);
      OrderMonotone(managed / alignment, memory / alignment);
      SizeofMonotone(OrderOf(managed / alignment), OrderOf(memory / alignment));
    }
  }

  /** What an embedded arena needs: an aligned start, a power of two, and room for its metadata and one slot. */
  ghost predicate CanEmbed(main: nat, memory: nat, alignment: nat)
  {
    && main > 0 && main % SIZEOF_WORD == 0 && alignment >= 1 && IsPow2(alignment)
    && EmbedOffset(memory, alignment).CanFit?
    && Trimmed(EmbedOffset(memory, alignment).offset, alignment) >= alignment
  }

  /**
    `buddy_embed_alignment`: an empty arena over the start of a region, with its metadata behind
    what it hands out, or nothing exactly if it does not fit.
   */
  method Embed(main: nat, memory: nat, alignment: nat) returns (b: Buddy?)
    requires memory <= WORD / 2 && alignment < WORD
    ensures b != null <==> CanEmbed(main, memory, alignment)
    ensures b != null ==> b.Valid() && fresh(b) && fresh(b.tree) && fresh(b.tree.bits) && b.Blocks() == {}
    ensures b != null ==>
              var o := EmbedOffset(memory, alignment).offset;
              b.alignment == alignment && b.memorySize == Trimmed(o, alignment) && b.memorySize <= o <= memory
  {
    hide BuddySizeof, Buddy.Valid, Buddy.Blocks, IsPow2, IsCeiling;
    if main == 0 {
      return null;
    }
    var c := CeilingPowerOfTwo(alignment);
    AlignmentTest(alignment, c);
    if c != alignment {
      return null;
    }
    var check := EmbedOffset(memory, alignment);
    if check.CannotFit? {
      return null;
    }
    EmbeddedMetadataSafe(memory, alignment);
    SameRemainder(main, check.offset);
    if (main + check.offset) % SIZEOF_WORD != 0 || main % SIZEOF_WORD != 0 {
      return null;
    }
    TrimmedSmaller(check.offset, alignment);
    TrimmedEnough(check.offset, alignment);
    b := BuddyInit(check.offset, alignment);
  }

  lemma SameRemainder(main: nat, offset: nat)
    requires offset % SIZEOF_WORD == 0
    ensures (main + offset) % SIZEOF_WORD == main % SIZEOF_WORD
  {
  }

  /** Trimming leaves a slot exactly if there was room for one. */
  lemma TrimmedEnough(memory: nat, alignment: nat)
    requires alignment >= 1
    ensures Trimmed(memory, alignment) >= alignment <==> memory >= alignment
  {
    Blocks(memory, alignment);
  }

  lemma TrimmedSmaller(memory: nat, alignment: nat)
    requires alignment >= 1
    ensures Trimmed(memory, alignment) <= memory
  {
  }

  lemma OrderMonotone(a: nat, b: nat)
    requires a <= b
    ensures OrderOf(a) <= OrderOf(b)
  {
    if a > 1 { BitLengthMonotone(a - 1, b - 1); }
  }

  lemma AlignedOffset(memory: nat, size0: nat)
    requires size0 < memory
    ensures (memory - (size0 + (memory - size0) % SIZEOF_WORD)) % SIZEOF_WORD == 0
  {
  }
}
