/** Small things that several components share. */
module Basics {

  newtype byte = b: int | 0 <= b < 256

  datatype Option<T> = None | Some(value: T)

  function Max(a: int, b: int): int { if a < b then b else a }

  function Min(a: int, b: int): int { if a < b then a else b }

  lemma Distribute(a: int, b: int, c: int)
    ensures (a + b) * c == a * c + b * c
  {
  }

  lemma MulMonotone(a: int, b: int, c: nat)
    requires a <= b
    ensures a * c <= b * c
  {
  }

  lemma MulCancel(a: nat, b: nat, c: nat)
    requires c >= 1
    ensures a * c <= b * c <==> a <= b
    ensures a * c == b * c <==> a == b
  {
    if a < b { assert (a + 1) * c <= b * c; } else if b < a { assert (b + 1) * c <= a * c; }
  }

  lemma DoubleMul(r: int, h: int)
    ensures r * (2 * h) == (2 * r) * h == 2 * (r * h)
    ensures (2 * r + 1) * h == (2 * r) * h + h
  {
  }

  lemma DivMonotone(a: nat, b: nat, c: nat)
    requires a <= b && c >= 1
    ensures a / c <= b / c
  {
    var p, q := a / c, b / c;
    assert p * c <= a && b < q * c + c;
    Distribute(q, 1, c);
    MulCancel(q + 1, p, c);
  }
}
