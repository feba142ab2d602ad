/**
  The char-backed bitset of the buddy allocator.

  Bits are packed eight to a byte.  Ranges are handled a byte at a time with a
  table of masks; every operation is proved against the plain view of the bitset
  as a sequence of booleans (`Test`).
 */
module Bitset {

  /** The entry of the single-bit mask table for bit `i` of a byte. */
  function IndexMask(i: nat): bv8
    requires i < 8
  {
    if i == 0 then 1 else if i == 1 then 2 else if i == 2 then 4 else if i == 3 then 8
    else if i == 4 then 16 else if i == 5 then 32 else if i == 6 then 64 else 128
  }

  /** The table of masks: row `f`, column `t` selects the bits `f..t` of a byte. */
  const CHAR_MASK: seq<seq<bv8>> := [
    [1, 3, 7, 15, 31, 63, 127, 255],
    [0, 2, 6, 14, 30, 62, 126, 254],
    [0, 0, 4, 12, 28, 60, 124, 252],
    [0, 0, 0,  8, 24, 56, 120, 248],
    [0, 0, 0,  0, 16, 48, 112, 240],
    [0, 0, 0,  0,  0, 32,  96, 224],
    [0, 0, 0,  0,  0,  0,  64, 192],
    [0, 0, 0,  0,  0,  0,   0, 128]]

  predicate BitAt(b: bv8, i: nat)
    requires i < 8
  {
    b & IndexMask(i) != 0
  }

  function Mask(f: nat, t: nat): bv8
    requires f < 8 && t < 8
  {
    CHAR_MASK[f][t]
  }

  function Or(b: bv8, m: bv8): bv8 { b | m }

  function And(b: bv8, m: bv8): bv8 { b & m }

  function AndNot(b: bv8, m: bv8): bv8 { b & !m }

  /** What the mask table means. */
  lemma MaskSelects(f: nat, t: nat, i: nat)
    requires f < 8 && t < 8 && i < 8
    ensures BitAt(Mask(f, t), i) <==> f <= i <= t
  {
    if f == 0 { MaskRow(0, 1, 3, 7, 15, 31, 63, 127, 255, t, i); }
    else if f == 1 { MaskRow(1, 0, 2, 6, 14, 30, 62, 126, 254, t, i); }
    else if f == 2 { MaskRow(2, 0, 0, 4, 12, 28, 60, 124, 252, t, i); }
    else if f == 3 { MaskRow(3, 0, 0, 0, 8, 24, 56, 120, 248, t, i); }
    else if f == 4 { MaskRow(4, 0, 0, 0, 0, 16, 48, 112, 240, t, i); }
    else if f == 5 { MaskRow(5, 0, 0, 0, 0, 0, 32, 96, 224, t, i); }
    else if f == 6 { MaskRow(6, 0, 0, 0, 0, 0, 0, 64, 192, t, i); }
    else { MaskRow(7, 0, 0, 0, 0, 0, 0, 0, 128, t, i); }
  }

  lemma MaskRow(f: nat, m0: bv8, m1: bv8, m2: bv8, m3: bv8, m4: bv8, m5: bv8, m6: bv8, m7: bv8, t: nat, i: nat)
    requires f < 8 && t < 8 && i < 8
    requires CHAR_MASK[f] == [m0, m1, m2, m3, m4, m5, m6, m7]
    ensures Mask(f, t) == if t == 0 then m0 else if t == 1 then m1 else if t == 2 then m2 else if t == 3 then m3
                     else if t == 4 then m4 else if t == 5 then m5 else if t == 6 then m6 else m7
  {
  }

  lemma BitOps(b: bv8, m: bv8, i: nat)
    requires i < 8
    ensures BitAt(b | m, i) == (BitAt(b, i) || BitAt(m, i))
    ensures BitAt(b & !m, i) == (BitAt(b, i) && !BitAt(m, i))
    ensures BitAt(b & m, i) == (BitAt(b, i) && BitAt(m, i))
    ensures BitAt(255, i) && !BitAt(0, i)
  {
  }

  /** The number of set bits of a byte (the table of population counts). */
  function Popcount(b: bv8): nat
  {
    One(BitAt(b, 0)) + One(BitAt(b, 1)) + One(BitAt(b, 2)) + One(BitAt(b, 3))
    + One(BitAt(b, 4)) + One(BitAt(b, 5)) + One(BitAt(b, 6)) + One(BitAt(b, 7))
  }

  function One(b: bool): nat { if b then 1 else 0 }

  /** The bitset as a function from positions to booleans. */
  predicate Test(bits: seq<bv8>, pos: nat)
    requires pos / 8 < |bits|
  {
    BitAt(bits[pos / 8], pos % 8)
  }

  /** The number of set bits in `[lo, hi)`. */
  function Count(bits: seq<bv8>, lo: nat, hi: nat): nat
    requires lo <= hi <= 8 * |bits|
    decreases hi - lo
  {
    if lo == hi then 0 else Count(bits, lo, hi - 1) + One(Test(bits, hi - 1))
  }

  /** `bitset_set_range`: turns on the bits `lo..hi`, both ends included. */
  method SetRange(bits: array<bv8>, lo: nat, hi: nat)
    requires lo <= hi < 8 * bits.Length
    modifies bits
    ensures forall p: nat :: p < 8 * bits.Length ==>
              Test(bits[..], p) == (lo <= p <= hi || old(Test(bits[..], p)))
  {
    hide *;
    var fb, tb, fi, ti := lo / 8, hi / 8, lo % 8, hi % 8;
    ghost var was := bits[..];
    if fb == tb {
      bits[fb] := Or(bits[fb], Mask(fi, ti));
    } else {
      bits[fb] := Or(bits[fb], Mask(fi, 7));
      bits[tb] := Or(bits[tb], Mask(0, ti));
      for k := fb + 1 to tb
        invariant forall b :: 0 <= b < bits.Length && !(fb < b < k) ==>
                    bits[b] == if b == fb then Or(was[b], Mask(fi, 7)) else if b == tb then Or(was[b], Mask(0, ti))
                        else was[b]
        invariant forall b :: fb < b < k ==> bits[b] == 255
      {
        bits[k] := 255;
      }
    }
    forall p: nat | p < 8 * bits.Length
      ensures Test(bits[..], p) == (lo <= p <= hi || Test(was, p))
    {
      SetCase(fb, fi, tb, ti, was, bits[..], p);
    }
  }

  lemma SetCase(fb: nat, fi: nat, tb: nat, ti: nat, was: seq<bv8>, now: seq<bv8>, p: nat)
    requires fi < 8 && ti < 8 && fb <= tb < |was| == |now| && (fb == tb ==> fi <= ti) && p < 8 * |was|
    requires var b := p / 8;
             now[b] == if fb == tb && b == fb then Or(was[b], Mask(fi, ti))
                       else if b == fb then Or(was[b], Mask(fi, 7))
                       else if b == tb then Or(was[b], Mask(0, ti))
                       else if fb < b < tb then 255 else was[b]
    ensures Test(now, p) == (8 * fb + fi <= p <= 8 * tb + ti || Test(was, p))
  {
    hide BitAt, Mask, Or;
    var b, i := p / 8, p % 8;
    if fb == tb && b == fb { OrBit(was[b], fi, ti, i); }
    else if b == fb { OrBit(was[b], fi, 7, i); }
    else if b == tb { OrBit(was[b], 0, ti, i); }
    else if fb < b < tb { BitOps(0, 0, i); }
  }

  /** `bitset_clear_range`: turns off the bits `lo..hi`, both ends included. */
  method ClearRange(bits: array<bv8>, lo: nat, hi: nat)
    requires lo <= hi < 8 * bits.Length
    modifies bits
    ensures forall p: nat :: p < 8 * bits.Length ==>
              Test(bits[..], p) == (!(lo <= p <= hi) && old(Test(bits[..], p)))
  {
    hide *;
    var fb, tb, fi, ti := lo / 8, hi / 8, lo % 8, hi % 8;
    ghost var was := bits[..];
    if fb == tb {
      bits[fb] := AndNot(bits[fb], Mask(fi, ti));
    } else {
      bits[fb] := AndNot(bits[fb], Mask(fi, 7));
      bits[tb] := AndNot(bits[tb], Mask(0, ti));
      for k := fb + 1 to tb
        invariant forall b :: 0 <= b < bits.Length && !(fb < b < k) ==>
                    bits[b] == if b == fb then AndNot(was[b], Mask(fi, 7))
                        else if b == tb then AndNot(was[b], Mask(0, ti)) else was[b]
        invariant forall b :: fb < b < k ==> bits[b] == 0
      {
        bits[k] := 0;
      }
    }
    forall p: nat | p < 8 * bits.Length
      ensures Test(bits[..], p) == (!(lo <= p <= hi) && Test(was, p))
    {
      ClearCase(fb, fi, tb, ti, was, bits[..], p);
    }
  }

  lemma ClearCase(fb: nat, fi: nat, tb: nat, ti: nat, was: seq<bv8>, now: seq<bv8>, p: nat)
    requires fi < 8 && ti < 8 && fb <= tb < |was| == |now| && (fb == tb ==> fi <= ti) && p < 8 * |was|
    requires var b := p / 8;
             now[b] == if fb == tb && b == fb then AndNot(was[b], Mask(fi, ti))
                       else if b == fb then AndNot(was[b], Mask(fi, 7))
                       else if b == tb then AndNot(was[b], Mask(0, ti))
                       else if fb < b < tb then 0 else was[b]
    ensures Test(now, p) == (!(8 * fb + fi <= p <= 8 * tb + ti) && Test(was, p))
  {
    hide BitAt, Mask, AndNot;
    var b, i := p / 8, p % 8;
    if fb == tb && b == fb { ClearBit(was[b], fi, ti, i); }
    else if b == fb { ClearBit(was[b], fi, 7, i); }
    else if b == tb { ClearBit(was[b], 0, ti, i); }
    else if fb < b < tb { BitOps(0, 0, i); }
  }

  lemma ClearBit(v: bv8, f: nat, t: nat, i: nat)
    requires f < 8 && t < 8 && i < 8
    ensures BitAt(AndNot(v, Mask(f, t)), i) == (!(f <= i <= t) && BitAt(v, i))
  {
    MaskSelects(f, t, i);
    var m := Mask(f, t);
    BitOps(v, m, i);
  }

  lemma AndBit(v: bv8, f: nat, t: nat, i: nat)
    requires f < 8 && t < 8 && i < 8
    ensures BitAt(And(v, Mask(f, t)), i) == (f <= i <= t && BitAt(v, i))
  {
    MaskSelects(f, t, i);
    var m := Mask(f, t);
    BitOps(v, m, i);
  }

  lemma OrBit(v: bv8, f: nat, t: nat, i: nat)
    requires f < 8 && t < 8 && i < 8
    ensures BitAt(Or(v, Mask(f, t)), i) == (f <= i <= t || BitAt(v, i))
  {
    MaskSelects(f, t, i);
    var m := Mask(f, t);
    BitOps(v, m, i);
  }

  /** `bitset_count_range`: the number of set bits in `lo..hi`, both ends included. */
  method CountRange(bits: array<bv8>, lo: nat, hi: nat) returns (n: nat)
    requires lo <= hi < 8 * bits.Length
    ensures n == Count(bits[..], lo, hi + 1)
  {
    hide *;
    var fb, tb, fi, ti := lo / 8, hi / 8, lo % 8, hi % 8;
    if fb == tb {
      n := Popcount(And(bits[fb], Mask(fi, ti)));
      MaskedCount(bits[..], fb, fi, ti);
    } else {
      n := Popcount(And(bits[fb], Mask(fi, 7))) + Popcount(And(bits[tb], Mask(0, ti)));
      MaskedCount(bits[..], fb, fi, 7);
      MaskedCount(bits[..], tb, 0, ti);
      for k := fb + 1 to tb
        invariant n == Count(bits[..], lo, 8 * k) + Count(bits[..], 8 * tb, hi + 1)
      {
        n := n + Popcount(bits[k]);
        MaskAll(bits[k]);
        MaskedCount(bits[..], k, 0, 7);
        CountSplit(bits[..], lo, 8 * k, 8 * k + 8);
      }
      CountSplit(bits[..], lo, 8 * tb, hi + 1);
    }
  }

  lemma MaskAll(v: bv8)
    ensures And(v, Mask(0, 7)) == v
  {
  }

  lemma {:induction false} CountSplit(bits: seq<bv8>, lo: nat, mid: nat, hi: nat)
    requires lo <= mid <= hi <= 8 * |bits|
    ensures Count(bits, lo, hi) == Count(bits, lo, mid) + Count(bits, mid, hi)
    decreases hi
  {
    hide Test;
    if mid < hi {
      CountSplit(bits, lo, mid, hi - 1);
    }
  }

  /** Within one byte, the population count of the masked byte is the count of the range. */
  lemma MaskedCount(bits: seq<bv8>, b: nat, f: nat, t: nat)
    requires b < |bits| && f <= t < 8
    ensures Popcount(And(bits[b], Mask(f, t))) == Count(bits, 8 * b + f, 8 * b + t + 1)
  {
    hide BitAt, Mask, And, Count;
    CountInByte(bits, b, f, t + 1);
    forall i: nat | i < 8 ensures BitAt(And(bits[b], Mask(f, t)), i) == (BitAt(bits[b], i) && f <= i < t + 1) {
      AndBit(bits[b], f, t, i);
    }
  }

  function InByte(v: bv8, f: nat, t: nat, i: nat): nat
    requires i < 8
  {
    One(BitAt(v, i) && f <= i < t)
  }

  lemma {:induction false} CountInByte(bits: seq<bv8>, b: nat, f: nat, t: nat)
    requires b < |bits| && f <= t <= 8
    ensures Count(bits, 8 * b + f, 8 * b + t) ==
            InByte(bits[b], f, t, 0) + InByte(bits[b], f, t, 1) + InByte(bits[b], f, t, 2) + InByte(bits[b], f, t, 3)
            + InByte(bits[b], f, t, 4) + InByte(bits[b], f, t, 5) + InByte(bits[b], f, t, 6) + InByte(bits[b], f, t, 7)
    decreases t
  {
    hide BitAt;
    if f < t {
      CountInByte(bits, b, f, t - 1);
      assert (8 * b + t - 1) / 8 == b && (8 * b + t - 1) % 8 == t - 1;
    }
  }
}
