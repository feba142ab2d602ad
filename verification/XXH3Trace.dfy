/**
  What reaches the arithmetic of XXH3: the calls of the kernel that make up the hash of an input,
  in closed form, and the same as a run over the stripes.

  The lane arithmetic is a parameter (`Kernel`): any accumulate and scramble functions, any
  conversion to the final hash, and any hash for short inputs.
 */
module XXH3Trace {
  import opened Basics

  const STRIPE_LEN := 64
  const SECRET_CONSUME_RATE := 8
  const SECRET_SIZE_MIN := 136
  const SECRET_LASTACC_START := 7
  const MIDSIZE_MAX := 240
  const BUFFER_SIZE := 256
  const BUFFER_STRIPES := 4

  /** The parts of the hash that work on accumulators; a secret is given by offsets into it. */
  datatype Kernel<!A(!new), !H(!new)> = Kernel(
    init: A, accumulate: (A, seq<byte>, nat) -> A, scramble: (A, nat) -> A, finalize: (A, nat) -> H,
        short: seq<byte> -> H,
        secretSize: nat)

  predicate Good<A(!new), H(!new)>(k: Kernel<A, H>) { k.secretSize >= SECRET_SIZE_MIN }

  function StripesPerBlock<A(!new), H(!new)>(k: Kernel<A, H>): (r: nat)
    requires Good(k)
    ensures r >= 1
  {
    (k.secretSize - STRIPE_LEN) / SECRET_CONSUME_RATE
  }

  function Stripe(input: seq<byte>, m: nat): seq<byte>
    requires STRIPE_LEN * (m + 1) <= |input|
  {
    input[STRIPE_LEN * m..STRIPE_LEN * (m + 1)]
  }

  /** The accumulators and the place in the block after the first `m` stripes. */
  function Run<A(!new), H(!new)>(k: Kernel<A, H>, input: seq<byte>, m: nat): (r: (A, nat))
    requires Good(k) && STRIPE_LEN * m <= |input|
    ensures r.1 < StripesPerBlock(k)
  {
    if m == 0 then (k.init, 0)
    else
      var (a, p) := Run(k, input, m - 1);
      var a' := k.accumulate(a, Stripe(input, m - 1), SECRET_CONSUME_RATE * p);
      if p + 1 == StripesPerBlock(k) then (k.scramble(a', k.secretSize - STRIPE_LEN), 0) else (a', p + 1)
  }

  // ----- the calls in closed form

  /** A stripe or a scramble, with the offset of the secret that goes with it. */
  datatype Call = Acc(stripe: seq<byte>, secret: int) | Scramble(secret: int)

  function Apply<A(!new), H(!new)>(k: Kernel<A, H>, a: A, c: Call): A
  {
    match c
    case Acc(stripe, secret) => k.accumulate(a, stripe, if secret >= 0 then secret else 0)
    case Scramble(secret) => k.scramble(a, if secret >= 0 then secret else 0)
  }

  /** The accumulators after the calls. */
  function Replay<A(!new), H(!new)>(k: Kernel<A, H>, calls: seq<Call>): A
  {
    if calls == [] then k.init else Apply(k, Replay(k, calls[..|calls| - 1]), calls[|calls| - 1])
  }

  /** How many stripes there are between two scrambles. */
  function PerBlock(secretSize: nat): nat { if secretSize >= 136 then (secretSize - 64) / 8 else 9 }

  /** Call number `j`: blocks of stripes, each with a scramble behind it. */
  function CallAt(input: seq<byte>, secretSize: nat, j: nat): Call
  {
    var b := PerBlock(secretSize);
    var block, place := j / (b + 1), j % (b + 1);
    var from := 64 * (block * b + place);
    if place == b then Scramble(secretSize - 64)
    else if from + 64 <= |input| then Acc(input[from..from + 64], 8 * place)
    else Acc([], 8 * place)
  }

  /** The calls for the first `m` stripes. */
  function Calls(input: seq<byte>, secretSize: nat, m: nat): seq<Call>
  {
    seq(m + m / PerBlock(secretSize), j requires j >= 0 => CallAt(input, secretSize, j))
  }

  /** The calls for an input above 240 bytes; its last 64 bytes meet a part of the secret of their own. */
  function Trace(input: seq<byte>, secretSize: nat): seq<Call>
    requires |input| > 240
  {
    Calls(input, secretSize, (|input| - 1) / 64) + [Acc(input[|input| - 64..], secretSize - 64 - 7)]
  }

  /** The hash of a whole input, that both interfaces are measured against. */
  function Reference<A(!new), H(!new)>(k: Kernel<A, H>, input: seq<byte>): H
    requires Good(k)
  {
    if |input| <= 240 then k.short(input) else k.finalize(Replay(k, Trace(input, k.secretSize)), |input|)
  }

  // ----- what the closed form says

  lemma Digits(x: nat, q: nat, r: nat, d: nat)
    requires r < d && x == q * d + r
    ensures x / d == q && x % d == r
  {
    var p, t := x / d, x % d;
    assert x == p * d + t;
    if p < q { MulMonotone(p + 1, q, d); Distribute(p, 1, d); }
    if q < p { MulMonotone(q + 1, p, d); Distribute(q, 1, d); }
  }

  /** Stripe `i` is accumulated once, behind all earlier ones and the scrambles between them. */
  lemma StripeCall(input: seq<byte>, secretSize: nat, m: nat, i: nat)
    requires secretSize >= 136 && i < m && 64 * m <= |input|
    ensures var b, calls := (secretSize - 64) / 8, Calls(input, secretSize, m);
            && b >= 1 && |calls| == m + m / b && i + i / b < |calls|
            && calls[i + i / b] == Acc(input[64 * i..64 * i + 64], 8 * (i % b))
  {
    hide CallAt, Calls;
    var b := (secretSize - 64) / 8;
    CallOfStripe(input, secretSize, i);
    DivMonotone(i, m, b);
    CallNumber(input, secretSize, m, i + i / b);
  }

  lemma CallNumber(input: seq<byte>, secretSize: nat, m: nat, j: nat)
    requires secretSize >= 136
    ensures var b, calls := (secretSize - 64) / 8, Calls(input, secretSize, m);
            && b >= 1 && |calls| == m + m / b
            && (j < m + m / b ==> calls[j] == CallAt(input, secretSize, j))
  {
    hide CallAt;
  }

  lemma CallOfStripe(input: seq<byte>, secretSize: nat, i: nat)
    requires secretSize >= 136 && 64 * (i + 1) <= |input|
    ensures var b := (secretSize - 64) / 8;
            b >= 1 && CallAt(input, secretSize, i + i / b) == Acc(input[64 * i..64 * i + 64], 8 * (i % b))
  {
    var b := (secretSize - 64) / 8;
    var q, r := i / b, i % b;
    assert i == q * b + r;
    assert i + q == q * (b + 1) + r;
    Digits(i + q, q, r, b + 1);
  }

  /** A scramble follows every `b`-th stripe, and nothing else is called. */
  lemma ScrambleCall(input: seq<byte>, secretSize: nat, m: nat, q: nat)
    requires secretSize >= 136 && 64 * m <= |input| && (q + 1) * ((secretSize - 64) / 8) <= m
    ensures var b, calls := (secretSize - 64) / 8, Calls(input, secretSize, m);
            && b >= 1 && (q + 1) * (b + 1) - 1 < |calls|
            && calls[(q + 1) * (b + 1) - 1] == Scramble(secretSize - 64)
  {
    hide CallAt, Calls;
    var b := (secretSize - 64) / 8;
    CallOfScramble(input, secretSize, q);
    CallNumber(input, secretSize, m, (q + 1) * (b + 1) - 1);
    DivMonotone((q + 1) * b, m, b);
    Digits((q + 1) * b, q + 1, 0, b);
    assert (q + 1) * (b + 1) == (q + 1) * b + (q + 1);
  }

  lemma CallOfScramble(input: seq<byte>, secretSize: nat, q: nat)
    requires secretSize >= 136
    ensures var b := (secretSize - 64) / 8;
            && b >= 1 && (q + 1) * (b + 1) >= 1
            && CallAt(input, secretSize, (q + 1) * (b + 1) - 1) == Scramble(secretSize - 64)
  {
    var b := (secretSize - 64) / 8;
    Distribute(q, 1, b + 1);
    assert (q + 1) * (b + 1) - 1 == q * (b + 1) + b;
    Digits((q + 1) * (b + 1) - 1, q, b, b + 1);
  }

  // ----- the run makes these calls

  /** The run over the stripes and the calls come to the same accumulators. */
  lemma {:induction false} RunIsReplay<A(!new), H(!new)>(k: Kernel<A, H>, input: seq<byte>, m: nat)
    requires Good(k) && STRIPE_LEN * m <= |input|
    ensures Run(k, input, m) == (Replay(k, Calls(input, k.secretSize, m)), m % StripesPerBlock(k))
  {
    hide Replay, Calls, StripesPerBlock;
    if m == 0 {
      NoCalls(k, input);
    } else {
      RunIsReplay(k, input, m - 1);
      NextPlace(m - 1, StripesPerBlock(k));
      MoreCalls(k, input, m - 1);
    }
  }

  lemma NoCalls<A(!new), H(!new)>(k: Kernel<A, H>, input: seq<byte>)
    requires Good(k)
    ensures Replay(k, Calls(input, k.secretSize, 0)) == k.init && 0 % StripesPerBlock(k) == 0
  {
    assert Calls(input, k.secretSize, 0) == [];
  }

  lemma NextPlace(m: nat, b: nat)
    requires b >= 1
    ensures (m + 1) % b == (if m % b + 1 == b then 0 else m % b + 1)
    ensures (m + 1) / b == m / b + (if m % b + 1 == b then 1 else 0)
  {
    var q, r := m / b, m % b;
    assert m == q * b + r;
    if r + 1 == b {
      Distribute(q, 1, b);
      Digits(m + 1, q + 1, 0, b);
    } else {
      Digits(m + 1, q, r + 1, b);
    }
  }

  /** One more stripe adds its call, and a scramble at the end of a block. */
  lemma MoreCalls<A(!new), H(!new)>(k: Kernel<A, H>, input: seq<byte>, m: nat)
    requires Good(k) && STRIPE_LEN * (m + 1) <= |input|
    ensures var b := StripesPerBlock(k);
            var a := k.accumulate(Replay(k, Calls(input, k.secretSize, m)), Stripe(input, m),
                SECRET_CONSUME_RATE * (m % b));
            Replay(k, Calls(input, k.secretSize, m + 1)) ==
            if m % b + 1 == b then k.scramble(a, k.secretSize - STRIPE_LEN) else a
  {
    hide Replay, Calls, CallAt, StripesPerBlock, Stripe;
    var b, z := StripesPerBlock(k), k.secretSize;
    CallsGrow(input, z, m);
    StripeAsCall(k, input, m);
    var calls, c := Calls(input, z, m), Acc(Stripe(input, m), SECRET_CONSUME_RATE * (m % b));
    ReplayMore(k, calls, c);
    if m % b + 1 == b {
      ScrambleAsCall(k, input, m);
      ReplayMore(k, calls + [c], Scramble(z - 64));
    }
  }

  lemma StripeAsCall<A(!new), H(!new)>(k: Kernel<A, H>, input: seq<byte>, m: nat)
    requires Good(k) && STRIPE_LEN * (m + 1) <= |input|
    ensures var b := StripesPerBlock(k);
            && b == PerBlock(k.secretSize)
            && CallAt(input, k.secretSize, m + m / b) == Acc(Stripe(input, m), SECRET_CONSUME_RATE * (m % b))
  {
    hide CallAt;
    CallOfStripe(input, k.secretSize, m);
  }

  lemma ScrambleAsCall<A(!new), H(!new)>(k: Kernel<A, H>, input: seq<byte>, m: nat)
    requires Good(k) && m % StripesPerBlock(k) + 1 == StripesPerBlock(k)
    ensures CallAt(input, k.secretSize, m + 1 + m / StripesPerBlock(k)) == Scramble(k.secretSize - 64)
  {
    hide CallAt;
    EndOfBlock(m, StripesPerBlock(k));
    CallOfScramble(input, k.secretSize, m / StripesPerBlock(k));
  }

  lemma CallsGrow(input: seq<byte>, secretSize: nat, m: nat)
    requires secretSize >= 136
    ensures var b, calls := PerBlock(secretSize), Calls(input, secretSize, m);
            var next := calls + [CallAt(input, secretSize, m + m / b)];
            Calls(input, secretSize, m + 1) ==
            if m % b + 1 == b then next + [CallAt(input, secretSize, m + 1 + m / b)] else next
  {
    hide CallAt;
    NextPlace(m, PerBlock(secretSize));
  }

  lemma EndOfBlock(m: nat, b: nat)
    requires b >= 1 && m % b + 1 == b
    ensures (m / b + 1) * (b + 1) - 1 == m + 1 + m / b
  {
    var q := m / b;
    assert m == q * b + (b - 1);
    assert (q + 1) * (b + 1) == q * b + q + b + 1;
  }

  lemma ReplayMore<A(!new), H(!new)>(k: Kernel<A, H>, calls: seq<Call>, c: Call)
    ensures Replay(k, calls + [c]) == Apply(k, Replay(k, calls), c)
  {
    assert (calls + [c])[..|calls|] == calls;
  }

  /** The hash is that of a run over the stripes with the last 64 bytes behind it. */
  lemma ReferenceByRun<A(!new), H(!new)>(k: Kernel<A, H>, input: seq<byte>)
    requires Good(k)
    ensures var len := |input|;
            Reference(k, input) ==
            if len <= MIDSIZE_MAX then k.short(input)
            else k.finalize(
                   k.accumulate(Run(k, input, (len - 1) / STRIPE_LEN).0, input[len - STRIPE_LEN..],
                                k.secretSize - STRIPE_LEN - SECRET_LASTACC_START), len)
  {
    var len := |input|;
    if len > MIDSIZE_MAX {
      RunIsReplay(k, input, (len - 1) / STRIPE_LEN);
      LastCall(k, input);
      hide Replay, Calls, Run, Trace;
    }
  }

  lemma LastCall<A(!new), H(!new)>(k: Kernel<A, H>, input: seq<byte>)
    requires Good(k) && |input| > 240
    ensures Replay(k, Trace(input, k.secretSize)) ==
            k.accumulate(Replay(k, Calls(input, k.secretSize, (|input| - 1) / STRIPE_LEN)),
                input[|input| - STRIPE_LEN..],
                         k.secretSize - STRIPE_LEN - SECRET_LASTACC_START)
  {
    hide Replay, Calls;
    ReplayMore(k, Calls(input, k.secretSize, (|input| - 1) / 64), Acc(input[|input| - 64..], k.secretSize - 64 - 7));
  }

  // ----- seen from outside

  /** A kernel that writes down what it is called with. */
  function Recorder(secretSize: nat): Kernel<seq<Call>, (seq<Call>, nat)>
  {
    Kernel([], (a: seq<Call>, s: seq<byte>, o: nat) => a + [Acc(s, o)], (a: seq<Call>, o: nat) => a + [Scramble(o)],
           (a: seq<Call>, n: nat) => (a, n), (s: seq<byte>) => ([Acc(s, -1)], |s|), secretSize)
  }

  predicate Proper(calls: seq<Call>) { forall j :: 0 <= j < |calls| ==> calls[j].secret >= 0 }

  lemma {:induction false} Recorded(secretSize: nat, calls: seq<Call>)
    requires Proper(calls)
    ensures Replay(Recorder(secretSize), calls) == calls
  {
    if calls != [] {
      var n := |calls| - 1;
      Recorded(secretSize, calls[..n]);
      assert calls == calls[..n] + [calls[n]];
    }
  }

  /** The record of a hash is its trace, or the one call for a short input. */
  lemma RecordOfHash(secretSize: nat, input: seq<byte>)
    requires secretSize >= 136
    ensures Reference(Recorder(secretSize), input) ==
            if |input| <= 240 then ([Acc(input, -1)], |input|) else (Trace(input, secretSize), |input|)
  {
    if |input| > 240 { Recorded(secretSize, Trace(input, secretSize)); }
  }
}
