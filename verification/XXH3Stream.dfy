/**
  XXH3 with 64-bit results: the streaming interface against the one-shot hash.

  The lane arithmetic is a parameter (`Kernel`): any accumulate and scramble functions, any
  conversion to the final hash, and any hash for short inputs.  What is modelled is which
  bytes reach them, in which order and with which part of the secret.
 */
module XXH3Stream {
  import opened Basics
  import opened XXH3Trace

  /** `XXH3_accumulate`: consecutive stripes of `data` with consecutive parts of the secret. */
  function Accumulate<A(!new), H(!new)>(k: Kernel<A, H>, acc: A, data: seq<byte>, secret: nat, n: nat): A
    requires STRIPE_LEN * n <= |data|
  {
    if n == 0 then acc
    else k.accumulate(Accumulate(k, acc, data, secret, n - 1), Stripe(data, n - 1),
        secret + SECRET_CONSUME_RATE * (n - 1))
  }

  /** `data` is the input from stripe `m` on. */
  predicate From(data: seq<byte>, input: seq<byte>, m: nat, n: nat)
  {
    STRIPE_LEN * n <= |data| && STRIPE_LEN * (m + n) <= |input| &&
        data[..STRIPE_LEN * n] == input[STRIPE_LEN * m..STRIPE_LEN * (m + n)]
  }

  lemma SliceOfSlice(s: seq<byte>, a: nat, b: nat, i: nat, j: nat)
    requires i <= j <= b - a && a <= b <= |s|
    ensures s[a..b][i..j] == s[a + i..a + j]
  {
    var x, y := s[a..b][i..j], s[a + i..a + j];
    assert |x| == |y| && forall t :: 0 <= t < |x| ==> x[t] == y[t];
  }

  lemma StripeFrom(data: seq<byte>, input: seq<byte>, m: nat, n: nat, i: nat)
    requires From(data, input, m, n) && i < n
    ensures Stripe(data, i) == Stripe(input, m + i)
  {
    var d, e := data[..STRIPE_LEN * n], input[STRIPE_LEN * m..STRIPE_LEN * (m + n)];
    assert Stripe(data, i) == d[STRIPE_LEN * i..STRIPE_LEN * (i + 1)];
    assert Stripe(input, m + i) == e[STRIPE_LEN * i..STRIPE_LEN * (i + 1)] by {
      SliceOfSlice(input, STRIPE_LEN * m, STRIPE_LEN * (m + n), STRIPE_LEN * i, STRIPE_LEN * (i + 1));
      assert STRIPE_LEN * m + STRIPE_LEN * i == STRIPE_LEN * (m + i);
      assert STRIPE_LEN * m + STRIPE_LEN * (i + 1) == STRIPE_LEN * (m + i + 1);
    }
  }

  /** Within a block, accumulating `n` stripes is `n` steps of the run, short of a last scramble. */
  lemma {:induction false} AccumulateInBlock<A(!new), H(!new)>(k: Kernel<A, H>, input: seq<byte>, m: nat,
      data: seq<byte>, n: nat)
    requires Good(k) && From(data, input, m, n) && Run(k, input, m).1 + n <= StripesPerBlock(k)
    ensures var (a, p) := Run(k, input, m);
            var b := Accumulate(k, a, data, SECRET_CONSUME_RATE * p, n);
            Run(k, input, m + n) == if n > 0 &&
                p + n == StripesPerBlock(k) then (k.scramble(b, k.secretSize - STRIPE_LEN), 0) else (b, p + n)
    decreases n
  {
    if n > 0 {
      assert From(data, input, m, n - 1) by { FromShorter(data, input, m, n); }
      AccumulateInBlock(k, input, m, data, n - 1);
      StripeFrom(data, input, m, n, n - 1);
      assert m + n - 1 == m + (n - 1);
    }
  }

  lemma FromShorter(data: seq<byte>, input: seq<byte>, m: nat, n: nat)
    requires n > 0 && From(data, input, m, n)
    ensures From(data, input, m, n - 1)
  {
    var j := STRIPE_LEN * (n - 1);
    assert data[..j] == data[..STRIPE_LEN * n][..j];
    assert input[STRIPE_LEN * m..STRIPE_LEN * (m + n - 1)] == input[STRIPE_LEN * m..STRIPE_LEN * (m + n)][..j];
  }

  lemma FromRest(data: seq<byte>, input: seq<byte>, m: nat, n: nat, i: nat)
    requires i <= n && From(data, input, m, n)
    ensures From(data, input, m, i) && From(data[STRIPE_LEN * i..], input, m + i, n - i)
  {
    var d, e := data[..STRIPE_LEN * n], input[STRIPE_LEN * m..STRIPE_LEN * (m + n)];
    assert data[..STRIPE_LEN * i] == d[..STRIPE_LEN * i];
    assert input[STRIPE_LEN * m..STRIPE_LEN * (m + i)] == e[..STRIPE_LEN * i];
    assert data[STRIPE_LEN * i..][..STRIPE_LEN * (n - i)] == d[STRIPE_LEN * i..];
    assert input[STRIPE_LEN * (m + i)..STRIPE_LEN * (m + n)] == e[STRIPE_LEN * i..];
  }

  /** A run looks at its own stripes only. */
  lemma {:induction false} RunPrefix<A(!new), H(!new)>(k: Kernel<A, H>, input: seq<byte>, more: seq<byte>, m: nat)
    requires Good(k) && STRIPE_LEN * m <= |input|
    ensures Run(k, input + more, m) == Run(k, input, m)
  {
    if m > 0 {
      RunPrefix(k, input, more, m - 1);
      assert Stripe(input + more, m - 1) == Stripe(input, m - 1);
    }
  }

  /**
    `XXH3_consumeStripes`: continues a run over data that may begin and end inside a block.
   */
  method ConsumeStripes<A(!new), H(!new)>(k: Kernel<A, H>, acc: A, soFar: nat, data: seq<byte>, nbStripes: nat,
      ghost input: seq<byte>, ghost m: nat)
      returns (acc': A, soFar': nat)
    requires Good(k) && From(data, input, m, nbStripes) && (acc, soFar) == Run(k, input, m)
    ensures (acc', soFar') == Run(k, input, m + nbStripes)
  {
    hide Run, From, Accumulate, StripesPerBlock;
    acc', soFar' := acc, soFar;
    var perBlock := StripesPerBlock(k);
    var rest := data;
    var left: nat := nbStripes;
    ghost var at: nat := m;
    FromSize(data, input, m, nbStripes);
    if left >= perBlock - soFar {
      var now: nat := perBlock - soFar;
      var first := true;
      while first || left >= perBlock
        invariant at + left == m + nbStripes && From(rest, input, at, left)
        invariant STRIPE_LEN * at <= |input| && (acc', soFar') == Run(k, input, at) && soFar' < perBlock
        invariant now == perBlock - soFar' && (if first then left >= now else soFar' == 0)
        decreases first, left
      {
        FromRest(rest, input, at, left, now);
        FromSize(rest, input, at, now);
        AccumulateInBlock(k, input, at, rest, now);
        acc', soFar' :=
          k.scramble(Accumulate(k, acc', rest, SECRET_CONSUME_RATE * soFar', now), k.secretSize - STRIPE_LEN), 0;
        rest, left, at := rest[STRIPE_LEN * now..], left - now, at + now;
        FromSize(rest, input, at, left);
        now, first := perBlock, false;
      }
    }
    if left > 0 {
      assert soFar' + left < perBlock;
      FromSize(rest, input, at, left);
      AccumulateInBlock(k, input, at, rest, left);
      acc', soFar' := Accumulate(k, acc', rest, SECRET_CONSUME_RATE * soFar', left), soFar' + left;
    }
  }

  lemma FromSize(data: seq<byte>, input: seq<byte>, m: nat, n: nat)
    requires From(data, input, m, n)
    ensures STRIPE_LEN * n <= |data| && STRIPE_LEN * (m + n) <= |input|
  {
  }

  /** Whole blocks scramble at their end, so a run over them ends at the start of a block. */
  lemma BlockStep<A(!new), H(!new)>(k: Kernel<A, H>, input: seq<byte>, m: nat)
    requires Good(k) && STRIPE_LEN * (m + StripesPerBlock(k)) <= |input| && Run(k, input, m).1 == 0
    ensures Run(k, input, m + StripesPerBlock(k)) ==
            (k.scramble(Accumulate(k, Run(k, input, m).0, input[STRIPE_LEN * m..], 0, StripesPerBlock(k)),
                        k.secretSize - STRIPE_LEN), 0)
  {
    hide Run, Accumulate, StripesPerBlock;
    var n := StripesPerBlock(k);
    FromItself(input, m, n);
    AccumulateInBlock(k, input, m, input[STRIPE_LEN * m..], n);
  }

  lemma FromItself(input: seq<byte>, m: nat, n: nat)
    requires STRIPE_LEN * (m + n) <= |input|
    ensures From(input[STRIPE_LEN * m..], input, m, n)
  {
    assert input[STRIPE_LEN * m..][..STRIPE_LEN * n] == input[STRIPE_LEN * m..STRIPE_LEN * (m + n)];
  }

  lemma BlockCount(len: nat, perBlock: nat) returns (blocks: nat, stripes: nat)
    requires len >= 1 && perBlock >= 1
    ensures blocks == (len - 1) / (STRIPE_LEN * perBlock)
    ensures stripes == (len - 1 - STRIPE_LEN * perBlock * blocks) / STRIPE_LEN
    ensures blocks * perBlock + stripes == (len - 1) / STRIPE_LEN && stripes < perBlock
    ensures STRIPE_LEN * (blocks * perBlock + stripes) < len
  {
    var whole := STRIPE_LEN * perBlock;
    blocks := (len - 1) / whole;
    var rest := len - 1 - whole * blocks;
    assert 0 <= rest < whole by { DivMod(len - 1, whole); }
    stripes := rest / STRIPE_LEN;
    assert len - 1 == STRIPE_LEN * (perBlock * blocks) + rest;
    assert blocks * perBlock == perBlock * blocks;
  }

  lemma DivMod(a: nat, b: nat)
    requires b > 0
    ensures a / b * b <= a < (a / b + 1) * b
  {
    assert a == a / b * b + a % b;
  }

  /** `XXH3_hashLong_internal_loop` and the conversion after it. */
  method HashLong<A(!new), H(!new)>(k: Kernel<A, H>, input: seq<byte>) returns (h: H)
    requires Good(k) && |input| > MIDSIZE_MAX
    ensures h == Reference(k, input)
  {
    hide Run, Accumulate, StripesPerBlock, From, Reference;
    var perBlock := StripesPerBlock(k);
    var len := |input|;
    ghost var blocks, stripes := BlockCount(len, perBlock);
    var nbBlocks := (len - 1) / (STRIPE_LEN * perBlock);
    var acc := k.init;
    assert (acc, 0) == Run(k, input, 0) by { RunStart(k, input); }
    var n: nat := 0;
    while n < nbBlocks
      invariant n <= nbBlocks && STRIPE_LEN * (n * perBlock) <= len
      invariant (acc, 0) == Run(k, input, n * perBlock)
    {
      BlockFits(n, nbBlocks, perBlock, len, stripes);
      BlockStep(k, input, n * perBlock);
      acc := k.scramble(Accumulate(k, acc, input[STRIPE_LEN * (n * perBlock)..], 0, perBlock),
          k.secretSize - STRIPE_LEN);
      n := n + 1;
    }
    var nbStripes: nat := (len - 1 - STRIPE_LEN * perBlock * nbBlocks) / STRIPE_LEN;
    FromItself(input, n * perBlock, nbStripes);
    AccumulateInBlock(k, input, n * perBlock, input[STRIPE_LEN * (n * perBlock)..], nbStripes);
    acc := Accumulate(k, acc, input[STRIPE_LEN * (n * perBlock)..], 0, nbStripes);
    ReferenceByRun(k, input);
    h := k.finalize(k.accumulate(acc, input[len - STRIPE_LEN..], k.secretSize - STRIPE_LEN - SECRET_LASTACC_START),
        len);
  }

  lemma RunStart<A(!new), H(!new)>(k: Kernel<A, H>, input: seq<byte>)
    requires Good(k)
    ensures Run(k, input, 0) == (k.init, 0)
  {
  }

  lemma BlockFits(n: nat, blocks: nat, perBlock: nat, len: nat, stripes: nat)
    requires n < blocks && STRIPE_LEN * (blocks * perBlock + stripes) < len
    ensures (n + 1) * perBlock == n * perBlock + perBlock && STRIPE_LEN * (n * perBlock + perBlock) < len
  {
    assert (n + 1) * perBlock <= blocks * perBlock;
  }

  /** `XXH3_64bits_internal`. */
  method Hash<A(!new), H(!new)>(k: Kernel<A, H>, input: seq<byte>) returns (h: H)
    requires Good(k)
    ensures h == Reference(k, input)
  {
    if |input| <= MIDSIZE_MAX {
      h := k.short(input);
    } else {
      h := HashLong(k, input);
    }
  }

  /**
    What the streaming state has to hold after `input`: `m` stripes are consumed and the
    rest is at the start of the buffer.  Past the rest, the buffer's last stripe still
    holds the bytes that came just before it.
   */
  ghost predicate Holds<A(!new), H(!new)>(k: Kernel<A, H>, input: seq<byte>, m: nat, acc: A, soFar: nat,
      buffer: seq<byte>, size: nat)
    requires Good(k)
  {
    && |buffer| == BUFFER_SIZE && size <= BUFFER_SIZE
    && STRIPE_LEN * m + size == |input|
    && buffer[..size] == input[STRIPE_LEN * m..]
    && (acc, soFar) == Run(k, input, m)
    && (m > 0 ==> m >= BUFFER_STRIPES && size > 0)
    && (m > 0 ==> forall i :: BUFFER_SIZE - STRIPE_LEN <= i < BUFFER_SIZE && size <= i ==>
          buffer[i] == input[STRIPE_LEN * m - BUFFER_SIZE + i])
  }

  /** In the middle of an update: `rest` is the input that is neither consumed nor buffered. */
  ghost predicate Midway<A(!new), H(!new)>(k: Kernel<A, H>, input: seq<byte>, m: nat, acc: A, soFar: nat,
      buffer: seq<byte>, rest: seq<byte>)
    requires Good(k)
  {
    && |buffer| == BUFFER_SIZE && rest != []
    && STRIPE_LEN * m + |rest| == |input|
    && rest == input[STRIPE_LEN * m..]
    && (acc, soFar) == Run(k, input, m)
    && (if m > 0 then m >= BUFFER_STRIPES &&
          buffer[BUFFER_SIZE - STRIPE_LEN..] == input[STRIPE_LEN * (m - 1)..STRIPE_LEN * m]
        else |rest| > BUFFER_SIZE)
  }

  function Overwrite(buffer: seq<byte>, at: nat, data: seq<byte>): (r: seq<byte>)
    requires at + |data| <= |buffer|
    ensures |r| == |buffer|
  {
    buffer[..at] + data + buffer[at + |data|..]
  }

  lemma BufferMore<A(!new), H(!new)>(k: Kernel<A, H>, input: seq<byte>, m: nat, acc: A, soFar: nat, buffer: seq<byte>,
      size: nat, data: seq<byte>)
    requires Good(k) && Holds(k, input, m, acc, soFar, buffer, size) && size + |data| <= BUFFER_SIZE
    ensures Holds(k, input + data, m, acc, soFar, Overwrite(buffer, size, data), size + |data|)
  {
    hide Run;
    RunPrefix(k, input, data, m);
    var b := Overwrite(buffer, size, data);
    assert b[..size + |data|] == buffer[..size] + data;
    assert (input + data)[STRIPE_LEN * m..] == input[STRIPE_LEN * m..] + data;
  }

  /** Filling up a partly filled buffer makes it the next four stripes of the longer input. */
  lemma FilledBuffer<A(!new), H(!new)>(k: Kernel<A, H>, input: seq<byte>, m: nat, acc: A, soFar: nat, buffer: seq<byte>,
      size: nat, data: seq<byte>)
    requires Good(k) && Holds(k, input, m, acc, soFar, buffer, size) && size + |data| > BUFFER_SIZE
    ensures STRIPE_LEN * m <= |input + data| && (acc, soFar) == Run(k, input + data, m)
    ensures From(Overwrite(buffer, size, data[..BUFFER_SIZE - size]), input + data, m, BUFFER_STRIPES)
  {
    hide Run;
    RunPrefix(k, input, data, m);
    var b := Overwrite(buffer, size, data[..BUFFER_SIZE - size]);
    assert b == buffer[..size] + data[..BUFFER_SIZE - size];
    assert b[..STRIPE_LEN * BUFFER_STRIPES] == b;
    var all := input + data;
    assert all[STRIPE_LEN * m..STRIPE_LEN * (m + BUFFER_STRIPES)] == input[STRIPE_LEN * m..] +
        data[..BUFFER_SIZE - size];
  }

  lemma AfterFilled<A(!new), H(!new)>(k: Kernel<A, H>, input: seq<byte>, m: nat, acc: A, soFar: nat, buffer: seq<byte>,
      rest: seq<byte>)
    requires Good(k) && From(buffer, input, m, BUFFER_STRIPES) && |buffer| == BUFFER_SIZE && rest != []
    requires STRIPE_LEN * (m + BUFFER_STRIPES) + |rest| == |input| && rest == input[STRIPE_LEN * (m + BUFFER_STRIPES)..]
    requires (acc, soFar) == Run(k, input, m + BUFFER_STRIPES)
    ensures Midway(k, input, m + BUFFER_STRIPES, acc, soFar, buffer, rest)
  {
    hide Run;
    assert Stripe(buffer, BUFFER_STRIPES - 1) == buffer[BUFFER_SIZE - STRIPE_LEN..];
    StripeFrom(buffer, input, m, BUFFER_STRIPES, BUFFER_STRIPES - 1);
  }

  /** All but a last non-empty piece of a long rest is consumed where it lies; its last stripe is kept. */
  lemma AfterDirect<A(!new), H(!new)>(k: Kernel<A, H>, input: seq<byte>, m: nat, n: nat, acc: A, soFar: nat,
      buffer: seq<byte>, rest: seq<byte>)
    requires Good(k) && |buffer| == BUFFER_SIZE && |rest| > BUFFER_SIZE && n == (|rest| - 1) / STRIPE_LEN
    requires STRIPE_LEN * m + |rest| == |input| && rest == input[STRIPE_LEN * m..]
    requires (acc, soFar) == Run(k, input, m + n)
    ensures Midway(k, input, m + n, acc, soFar,
            Overwrite(buffer, BUFFER_SIZE - STRIPE_LEN, rest[STRIPE_LEN * (n - 1)..STRIPE_LEN * n]),
            rest[STRIPE_LEN * n..])
    ensures |rest[STRIPE_LEN * n..]| <= BUFFER_SIZE
  {
    hide Run;
    var last := rest[STRIPE_LEN * (n - 1)..STRIPE_LEN * n];
    var b := Overwrite(buffer, BUFFER_SIZE - STRIPE_LEN, last);
    assert b[BUFFER_SIZE - STRIPE_LEN..] == last;
    assert last == input[STRIPE_LEN * (m + n - 1)..STRIPE_LEN * (m + n)];
    assert rest[STRIPE_LEN * n..] == input[STRIPE_LEN * (m + n)..];
  }

  lemma BufferRest<A(!new), H(!new)>(k: Kernel<A, H>, input: seq<byte>, m: nat, acc: A, soFar: nat, buffer: seq<byte>,
      rest: seq<byte>)
    requires Good(k) && Midway(k, input, m, acc, soFar, buffer, rest) && |rest| <= BUFFER_SIZE
    ensures Holds(k, input, m, acc, soFar, Overwrite(buffer, 0, rest), |rest|)
  {
    hide Run;
    var b := Overwrite(buffer, 0, rest);
    assert b[..|rest|] == rest;
    var tail := BUFFER_SIZE - STRIPE_LEN;
    forall i | tail <= i < BUFFER_SIZE && |rest| <= i
      ensures b[i] == input[STRIPE_LEN * m - BUFFER_SIZE + i]
    {
      assert b[i] == buffer[tail..][i - tail];
    }
  }

  /** `XXH3_state_t`; `input` is everything that has been given to it since the reset. */
  class State<A(!new), H(!new)> {
    const kernel: Kernel<A, H>
    const buffer: array<byte>
    var acc: A
    var soFar: nat
    var bufferedSize: nat
    var totalLen: nat
    ghost var input: seq<byte>
    ghost var consumed: nat

    ghost predicate Valid()
      reads this, buffer
    {
      && Good(kernel) && totalLen == |input| && buffer.Length == BUFFER_SIZE
      && Holds(kernel, input, consumed, acc, soFar, buffer[..], bufferedSize)
    }

    /** `XXH3_reset_internal`. */
    constructor (k: Kernel<A, H>)
      requires Good(k)
      ensures Valid() && input == [] && kernel == k && fresh(buffer)
    {
      kernel := k;
      buffer := new byte[BUFFER_SIZE](_ => 0);
      acc, soFar, bufferedSize, totalLen, input, consumed := k.init, 0, 0, 0, [], 0;
    }

    /** `memcpy` into the buffer. */
    method Store(at: nat, data: seq<byte>)
      requires at + |data| <= buffer.Length
      modifies buffer
      ensures buffer[..] == Overwrite(old(buffer[..]), at, data)
    {
      var i := 0;
      while i < |data|
        invariant 0 <= i <= |data|
        invariant forall j :: 0 <= j < buffer.Length ==>
                buffer[j] == if at <= j < at + i then data[j - at] else old(buffer[j])
      {
        buffer[at + i] := data[i];
        i := i + 1;
      }
    }

    /** `XXH3_update`. */
    method Update(data: seq<byte>)
      requires Valid()
      modifies this, buffer
      ensures Valid() && input == old(input) + data
    {
      hide Holds, Midway, From, Run, Overwrite, StripesPerBlock;
      ghost var was, b0 := input, buffer[..];
      SizeBound(kernel, input, consumed, acc, soFar, b0, bufferedSize);
      totalLen := totalLen + |data|;
      input := input + data;
      if |data| <= BUFFER_SIZE - bufferedSize {
        BufferMore(kernel, was, consumed, acc, soFar, b0, bufferedSize, data);
        Store(bufferedSize, data);
        bufferedSize := bufferedSize + |data|;
        return;
      }
      var rest := data;
      if bufferedSize > 0 {
        var load := BUFFER_SIZE - bufferedSize;
        FilledBuffer(kernel, was, consumed, acc, soFar, b0, bufferedSize, data);
        Store(bufferedSize, data[..load]);
        rest := rest[load..];
        acc, soFar := ConsumeStripes(kernel, acc, soFar, buffer[..], BUFFER_STRIPES, input, consumed);
        RestAfterFill(was, data, consumed, load);
        FromSize(buffer[..], input, consumed, BUFFER_STRIPES);
        AfterFilled(kernel, input, consumed, acc, soFar, buffer[..], rest);
        consumed := consumed + BUFFER_STRIPES;
        bufferedSize := 0;
      } else {
        EmptyBuffer(kernel, was, consumed, acc, soFar, b0, data);
      }
      if |rest| > BUFFER_SIZE {
        var n: nat := (|rest| - 1) / STRIPE_LEN;
        MidwayFrom(kernel, input, consumed, acc, soFar, buffer[..], rest, n);
        acc, soFar := ConsumeStripes(kernel, acc, soFar, rest, n, input, consumed);
        AfterDirect(kernel, input, consumed, n, acc, soFar, buffer[..], rest);
        Store(BUFFER_SIZE - STRIPE_LEN, rest[STRIPE_LEN * (n - 1)..STRIPE_LEN * n]);
        rest := rest[STRIPE_LEN * n..];
        consumed := consumed + n;
      }
      BufferRest(kernel, input, consumed, acc, soFar, buffer[..], rest);
      Store(0, rest);
      bufferedSize := |rest|;
    }

    /** `XXH3_64bits_digest`; the state stays as it is. */
    method Digest() returns (h: H)
      requires Valid()
      ensures h == Reference(kernel, input)
    {
      ReferenceByRun(kernel, input);
      hide Reference;
      if totalLen > MIDSIZE_MAX {
        var last := DigestLong();
        h := kernel.finalize(last, totalLen);
      } else {
        assert consumed == 0;
        h := kernel.short(buffer[..totalLen]);
      }
    }

    /** `XXH3_digest_long`. */
    method DigestLong() returns (last: A)
      requires Valid() && totalLen > MIDSIZE_MAX
      ensures last == kernel.accumulate(Run(kernel, input, (totalLen - 1) / STRIPE_LEN).0,
              input[totalLen - STRIPE_LEN..], kernel.secretSize - STRIPE_LEN - SECRET_LASTACC_START)
    {
      hide Run, StripesPerBlock, From;
      var a := acc;
      var stripe: seq<byte>;
      if bufferedSize >= STRIPE_LEN {
        var n: nat := (bufferedSize - 1) / STRIPE_LEN;
        BufferedFrom(kernel, input, consumed, acc, soFar, buffer[..], bufferedSize, n);
        var p;
        a, p := ConsumeStripes(kernel, acc, soFar, buffer[..], n, input, consumed);
        stripe := buffer[bufferedSize - STRIPE_LEN..bufferedSize];
        assert stripe == buffer[..bufferedSize][bufferedSize - STRIPE_LEN..];
      } else {
        var catchup := STRIPE_LEN - bufferedSize;
        stripe := buffer[BUFFER_SIZE - catchup..] + buffer[..bufferedSize];
        CatchUp(kernel, input, consumed, acc, soFar, buffer[..], bufferedSize);
        assert buffer[..][BUFFER_SIZE - catchup..] == buffer[BUFFER_SIZE - catchup..];
      }
      last := kernel.accumulate(a, stripe, kernel.secretSize - STRIPE_LEN - SECRET_LASTACC_START);
    }
  }

  lemma SizeBound<A(!new), H(!new)>(k: Kernel<A, H>, input: seq<byte>, m: nat, acc: A, soFar: nat, buffer: seq<byte>,
      size: nat)
    requires Good(k) && Holds(k, input, m, acc, soFar, buffer, size)
    ensures size <= BUFFER_SIZE && STRIPE_LEN * m + size == |input|
  {
  }

  lemma RestAfterFill(input: seq<byte>, data: seq<byte>, m: nat, load: nat)
    requires STRIPE_LEN * (m + BUFFER_STRIPES) == |input| + load && load <= |data|
    ensures data[load..] == (input + data)[STRIPE_LEN * (m + BUFFER_STRIPES)..]
  {
  }

  lemma EmptyBuffer<A(!new), H(!new)>(k: Kernel<A, H>, input: seq<byte>, m: nat, acc: A, soFar: nat, buffer: seq<byte>,
      data: seq<byte>)
    requires Good(k) && Holds(k, input, m, acc, soFar, buffer, 0) && |data| > BUFFER_SIZE
    ensures Midway(k, input + data, m, acc, soFar, buffer, data)
  {
    hide Run;
    RunPrefix(k, input, data, m);
    assert input + data == data;
  }

  lemma MidwayFrom<A(!new), H(!new)>(k: Kernel<A, H>, input: seq<byte>, m: nat, acc: A, soFar: nat, buffer: seq<byte>,
      rest: seq<byte>, n: nat)
    requires Good(k) && Midway(k, input, m, acc, soFar, buffer, rest) && n == (|rest| - 1) / STRIPE_LEN
    ensures STRIPE_LEN * m + |rest| == |input| && rest == input[STRIPE_LEN * m..]
    ensures (acc, soFar) == Run(k, input, m) && From(rest, input, m, n)
  {
    hide Run, From;
    FromItself(input, m, n);
  }

  lemma BufferedFrom<A(!new), H(!new)>(k: Kernel<A, H>, input: seq<byte>, m: nat, acc: A, soFar: nat, buffer: seq<byte>,
      size: nat, n: nat)
    requires Good(k) && Holds(k, input, m, acc, soFar, buffer, size) && size > 0 && n == (size - 1) / STRIPE_LEN
    ensures From(buffer, input, m, n) && m + n == (|input| - 1) / STRIPE_LEN
  {
    hide Run;
    assert buffer[..STRIPE_LEN * n] == buffer[..size][..STRIPE_LEN * n];
    assert input[STRIPE_LEN * m..STRIPE_LEN * (m + n)] == input[STRIPE_LEN * m..][..STRIPE_LEN * n];
  }

  /** With less than a stripe buffered, the last stripe straddles the buffer's old and new contents. */
  lemma CatchUp<A(!new), H(!new)>(k: Kernel<A, H>, input: seq<byte>, m: nat, acc: A, soFar: nat, buffer: seq<byte>,
      size: nat)
    requires Good(k) && Holds(k, input, m, acc, soFar, buffer, size) && size < STRIPE_LEN && |input| > MIDSIZE_MAX
    ensures m == (|input| - 1) / STRIPE_LEN
    ensures buffer[BUFFER_SIZE - (STRIPE_LEN - size)..] + buffer[..size] == input[|input| - STRIPE_LEN..]
  {
    hide Run;
    var start := |input| - STRIPE_LEN;
    assert input[start..] == input[start..STRIPE_LEN * m] + input[STRIPE_LEN * m..];
    assert buffer[BUFFER_SIZE - (STRIPE_LEN - size)..] == input[start..STRIPE_LEN * m];
  }

  function Concat(chunks: seq<seq<byte>>): seq<byte>
  {
    if chunks == [] then [] else Concat(chunks[..|chunks| - 1]) + chunks[|chunks| - 1]
  }

  /** Any chunking of an input, with digests taken on the way, ends in the one-shot hash. */
  method HashInChunks<A(!new), H(!new)>(k: Kernel<A, H>, chunks: seq<seq<byte>>) returns (h: H, onTheWay: seq<H>)
    requires Good(k)
    ensures h == Reference(k, Concat(chunks))
    ensures |onTheWay| == |chunks| && forall i :: 0 <= i < |chunks| ==> onTheWay[i] == Reference(k, Concat(chunks[..i]))
  {
    var state := new State(k);
    onTheWay := [];
    var i := 0;
    while i < |chunks|
      invariant 0 <= i <= |chunks| && state.Valid() && state.kernel == k && fresh(state) && fresh(state.buffer)
      invariant state.input == Concat(chunks[..i])
      invariant |onTheWay| == i && forall j :: 0 <= j < i ==> onTheWay[j] == Reference(k, Concat(chunks[..j]))
    {
      hide Reference, Run;
      var d := state.Digest();
      onTheWay := onTheWay + [d];
      state.Update(chunks[i]);
      assert chunks[..i + 1][..i] == chunks[..i];
      i := i + 1;
    }
    assert chunks[..i] == chunks;
    h := state.Digest();
  }
}
