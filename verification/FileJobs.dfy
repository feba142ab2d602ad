/** How a file is cut into blocks, and the rounding that unbuffered writes need. */
module FileJobs {
  import opened Basics
  import opened TreeShape
  import PowersOfTwo

  const DIRECT_IO_ALIGN := 4096

  /** `std::bit_ceil`. */
  function BitCeil(v: nat): (r: nat)
    ensures r >= v && r >= 1
  {
    if v <= 1 then 1 else 2 * BitCeil((v + 1) / 2)
  }

  lemma {:induction false} BitCeilPower(v: nat) returns (k: nat)
    ensures BitCeil(v) == Pow2(k) && (v >= 1 ==> BitCeil(v) < 2 * v)
  {
    if v <= 1 {
      k := 0;
    } else {
      k := BitCeilPower((v + 1) / 2);
      k := k + 1;
    }
  }

  lemma BitCeilIsCeiling(v: nat)
    ensures PowersOfTwo.IsCeiling(v, BitCeil(v))
  {
    var k := BitCeilPower(v);
    PowersOfTwo.Ceiling(v, BitCeil(v), k);
  }

  function BlockSize(fsize: nat, minBlockSize: nat, maxBlockSize: nat): nat
  {
    Max(minBlockSize, Min(maxBlockSize, BitCeil(fsize / 2)))
  }

  function BlockCount(fsize: nat, blockSize: nat): nat
  {
    if blockSize == 0 then 0 else fsize / blockSize + (if fsize % blockSize > 0 then 1 else 0)
  }

  /** For a power of two `align`, clearing the low bits rounds down to a multiple. */
  function AlignUp(n: int): int
  {
    (n + DIRECT_IO_ALIGN - 1) / DIRECT_IO_ALIGN * DIRECT_IO_ALIGN
  }

  lemma AlignUpLeast(n: nat)
    ensures AlignUp(n) % DIRECT_IO_ALIGN == 0 && n <= AlignUp(n) < n + DIRECT_IO_ALIGN
    ensures forall m: nat :: n <= m && m % DIRECT_IO_ALIGN == 0 ==> AlignUp(n) <= m
  {
  }

  lemma {:induction false} LargePowerAligned(k: nat)
    requires Pow2(k) >= DIRECT_IO_ALIGN
    ensures Pow2(k) % DIRECT_IO_ALIGN == 0
  {
    if Pow2(k) > DIRECT_IO_ALIGN {
      if Pow2(k - 1) < DIRECT_IO_ALIGN {
        TwelveBits();
        if k <= 12 { Pow2Monotone(k, 12); } else { Pow2Monotone(12, k - 1); }
        assert false;
      }
      LargePowerAligned(k - 1);
    }
  }

  lemma TwelveBits()
    ensures Pow2(12) == DIRECT_IO_ALIGN
  {
    assert Pow2(4) == 16;
    Pow2Add(4, 4); Pow2Add(8, 4);
  }

  /** A block size is between the two bounds, and between them it is the least power of two not below half the file. */
  lemma BlockSizeMeaning(fsize: nat, minBlockSize: nat, maxBlockSize: nat)
    ensures var r := BlockSize(fsize, minBlockSize, maxBlockSize);
            && minBlockSize <= r <= Max(minBlockSize, maxBlockSize)
            && (r < fsize / 2 ==> r == Max(minBlockSize, maxBlockSize))
            && (minBlockSize < r < maxBlockSize ==> PowersOfTwo.IsCeiling(fsize / 2, r))
  {
    BitCeilIsCeiling(fsize / 2);
  }

  /** Which option values make the block size of every file a positive multiple of the I/O alignment. */
  predicate GoodOptions(minBlockSize: nat, maxBlockSize: nat)
  {
    && minBlockSize > 0 && minBlockSize % DIRECT_IO_ALIGN == 0
    && (maxBlockSize <= minBlockSize || maxBlockSize % DIRECT_IO_ALIGN == 0)
  }

  ghost predicate Usable(fsize: nat, minBlockSize: nat, maxBlockSize: nat)
  {
    var size := BlockSize(fsize, minBlockSize, maxBlockSize);
    size > 0 && size % DIRECT_IO_ALIGN == 0
  }

  lemma BlockSizeAligned(minBlockSize: nat, maxBlockSize: nat)
    ensures (forall fsize: nat :: Usable(fsize, minBlockSize, maxBlockSize)) <==>
            GoodOptions(minBlockSize, maxBlockSize)
  {
    if GoodOptions(minBlockSize, maxBlockSize) {
      forall fsize: nat ensures Usable(fsize, minBlockSize, maxBlockSize) {
        var k := BitCeilPower(fsize / 2);
        if BlockSize(fsize, minBlockSize, maxBlockSize) == Pow2(k) && maxBlockSize > minBlockSize {
          LargePowerAligned(k);
        }
      }
    } else if minBlockSize % DIRECT_IO_ALIGN != 0 || minBlockSize == 0 {
      assert BitCeil(0) == 1;
      assert !Usable(0, minBlockSize, maxBlockSize);
    } else {
      assert BitCeil(maxBlockSize) >= maxBlockSize;
      assert !Usable(2 * maxBlockSize, minBlockSize, maxBlockSize);
    }
  }

  /** A block number is below the count exactly if the block starts inside the file. */
  lemma BlockCountMeaning(fsize: nat, blockSize: nat, b: nat)
    requires blockSize > 0
    ensures b < BlockCount(fsize, blockSize) <==> blockSize * b < fsize
  {
    var q, r := fsize / blockSize, fsize % blockSize;
    assert fsize == blockSize * q + r;
    if b <= q {
      MulMonotone(b, q, blockSize);
      if b < q { MulMonotone(b + 1, q, blockSize); assert blockSize * (b + 1) == blockSize * b + blockSize; }
    } else {
      MulMonotone(q + 1, b, blockSize);
      assert blockSize * (q + 1) == blockSize * q + blockSize;
    }
  }

  /** Padding a block to the alignment stays inside its buffer for every length exactly if the buffer is aligned. */
  lemma PaddingStays(blockSize: nat)
    ensures (forall nbytes: nat :: nbytes <= blockSize ==> AlignUp(nbytes) <= blockSize) <==>
            blockSize % DIRECT_IO_ALIGN == 0
  {
    if blockSize % DIRECT_IO_ALIGN == 0 {
      forall nbytes: nat | nbytes <= blockSize ensures AlignUp(nbytes) <= blockSize {
        PaddingFits(blockSize, nbytes);
      }
    } else {
      assert AlignUp(blockSize) > blockSize;
    }
  }

  lemma PaddingFits(blockSize: nat, nbytes: nat)
    requires blockSize % DIRECT_IO_ALIGN == 0 && nbytes <= blockSize
    ensures AlignUp(nbytes) <= blockSize
  {
  }

  /** Two blocks of one file, each with its padding, do not meet. */
  lemma BlocksApart(blockSize: nat, a: nat, b: nat)
    requires a < b
    ensures blockSize * a + blockSize <= blockSize * b
  {
    MulMonotone(a + 1, b, blockSize);
    assert blockSize * (a + 1) == blockSize * a + blockSize;
  }
}
