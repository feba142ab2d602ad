/**
  The power-of-two helpers of the buddy allocator, on 64-bit words.
 */
module PowersOfTwo {
  import opened TreeShape

  const WORD := 0x1_0000_0000_0000_0000

  /** The number of binary digits; zero for zero. */
  function BitLength(v: nat): nat
  {
    if v == 0 then 0 else 1 + BitLength(v / 2)
  }

  function Shift(v: nat, k: nat): nat { if k == 0 then v else Shift(v / 2, k - 1) }

  lemma {:induction false} BitLengthShift(v: nat, k: nat)
    requires v >= Pow2(k) - 1
    ensures BitLength(v) == BitLength(Shift(v, k)) + k
  {
    if k > 0 {
      assert v / 2 >= Pow2(k - 1) - 1;
      BitLengthShift(v / 2, k - 1);
    }
  }

  lemma {:induction false} BitLengthBounds(v: nat)
    requires v >= 1
    ensures BitLength(v) >= 1 && Pow2(BitLength(v) - 1) <= v < Pow2(BitLength(v))
  {
    if v > 1 { BitLengthBounds(v / 2); }
  }

  lemma {:induction false} ShiftBound(v: nat, k: nat, b: nat)
    requires v < Pow2(k) * b
    ensures Shift(v, k) < b
  {
    if k > 0 {
      assert Pow2(k) * b == 2 * (Pow2(k - 1) * b);
      ShiftBound(v / 2, k - 1, b);
    }
  }

  /** The least power of two that is not smaller than `v`. */
  ghost predicate IsCeiling(v: nat, r: nat)
  {
    && (exists k :: r == Pow2(k))
    && v <= r
    && forall k :: v <= Pow2(k) ==> r <= Pow2(k)
  }

  const ALL_SET: seq<nat> := [4294967295, 65535, 255, 15, 7, 3, 1]
  const COUNT: seq<nat> := [32, 16, 8, 4, 2, 1, 1]

  /** `highest_bit_position`: the table-driven bit length of a 64-bit word. */
  method HighestBitPosition(value0: nat) returns (result: nat)
    requires value0 < WORD
    ensures result == BitLength(value0)
  {
    hide BitLength;
    result := 0;
    var value: nat := value0;
    for i := 0 to 7
      invariant result + BitLength(value) == BitLength(value0)
      invariant value < if i == 0 then WORD else if i == 1 then 0x1_0000_0000 else if i == 2 then 0x1_0000
                   else if i == 3 then 0x100 else if i == 4 then 16 else if i == 5 then 7 else if i == 6 then 4 else 2
    {
      if value >= ALL_SET[i] {
        TableRow(i);
        BitLengthShift(value, COUNT[i]);
        NextBound(value, i);
        value := Shift(value, COUNT[i]);
        result := result + COUNT[i];
      }
    }
    BitLengthSmall(value);
    result := result + value;
  }

  lemma BitLengthSmall(v: nat)
    requires v <= 1
    ensures BitLength(v) == v
  {
  }

  lemma TableRow(i: nat)
    requires i < 7
    ensures ALL_SET[i] >= Pow2(COUNT[i]) - 1
  {
    PowerTable();
  }

  lemma PowerTable()
    ensures Pow2(1) == 2 && Pow2(2) == 4 && Pow2(4) == 16 && Pow2(8) == 256 && Pow2(16) == 65536
    ensures Pow2(32) == 0x1_0000_0000 && Pow2(63) == WORD / 2 && Pow2(64) == WORD
  {
    assert Pow2(4) == 16;
    Pow2Add(4, 4); Pow2Add(8, 8); Pow2Add(16, 16); Pow2Add(32, 32);
    assert Pow2(64) == 2 * Pow2(63);
  }

  lemma NextBound(value: nat, i: nat)
    requires i < 7
    requires value < if i == 0 then WORD else if i == 1 then 0x1_0000_0000 else if i == 2 then 0x1_0000
                else if i == 3 then 0x100 else if i == 4 then 16 else if i == 5 then 7 else 4
    ensures Shift(value, COUNT[i]) < if i == 0 then 0x1_0000_0000 else if i == 1 then 0x1_0000
                else if i == 2 then 0x100 else if i == 3 then 16 else if i == 4 then 7 else if i == 5 then 4 else 2
  {
    PowerTable();
    if i == 0 { ShiftBound(value, 32, 0x1_0000_0000); }
    else if i == 1 { ShiftBound(value, 16, 0x1_0000); }
    else if i == 2 { ShiftBound(value, 8, 0x100); }
    else if i == 3 { ShiftBound(value, 4, 16); }
    else if i == 4 { ShiftBound(value, 2, 4); }
    else if i == 5 { ShiftBound(value, 1, 4); }
    else { ShiftBound(value, 1, 2); }
  }

  /** `ceiling_power_of_two`, whose doubling is taken modulo the word size. */
  method CeilingPowerOfTwo(value0: nat) returns (r: nat)
    requires value0 < WORD
    ensures value0 <= WORD / 2 ==> IsCeiling(value0, r)
    ensures value0 > WORD / 2 ==> IsCeiling(value0 - WORD / 2, r) && r < value0
  {
    hide BitLength;
    var value := if value0 == 0 then 1 else value0;
    var doubled := (value + value - 1) % WORD;
    Doubling(value);
    var h := HighestBitPosition(doubled);
    BitLengthBounds(doubled);
    r := Pow2(h - 1);
    Pow2Double(h);
    if value0 <= WORD / 2 {
      Ceiling(value0, r, h - 1);
    } else {
      Ceiling(value0 - WORD / 2, r, h - 1);
    }
  }

  lemma Doubling(v: nat)
    requires 1 <= v < WORD
    ensures (v + v - 1) % WORD == if v <= WORD / 2 then 2 * v - 1 else 2 * v - 1 - WORD
  {
  }

  lemma Ceiling(v: nat, r: nat, k: nat)
    requires r == Pow2(k) && v <= r && (v >= 1 ==> r < 2 * v) && (v == 0 ==> r == 1)
    ensures IsCeiling(v, r)
  {
    forall j: nat | v <= Pow2(j) ensures r <= Pow2(j) {
      if j < k { Pow2Monotone(j, k); } else { Pow2Monotone(k, j); }
    }
  }

  lemma CeilingUnique(v: nat, r: nat, s: nat)
    requires IsCeiling(v, r) && IsCeiling(v, s)
    ensures r == s
  {
  }
}
