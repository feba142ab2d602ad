/** How many elements a set can have. */
module Cardinality {

  lemma {:induction false} SubsetSize<T>(a: set<T>, b: set<T>)
    requires a <= b
    ensures |a| <= |b|
  {
    if a != {} {
      var x :| x in a;
      SubsetSize(a - {x}, b - {x});
    }
  }

  /** A set of `n` numbers below `n` is all of them. */
  lemma {:induction false} AllNumbers(s: set<int>, n: nat)
    requires |s| == n && forall b :: b in s ==> 0 <= b < n
    ensures forall b :: 0 <= b < n ==> b in s
  {
    if n > 0 {
      if n - 1 in s {
        AllNumbers(s - {n - 1}, n - 1);
      } else {
        TooMany(s, n - 1);
      }
    }
  }

  lemma {:induction false} TooMany(s: set<int>, n: nat)
    requires forall b :: b in s ==> 0 <= b < n
    ensures |s| <= n
  {
    if n == 0 {
      assert forall b :: b !in s;
      assert s == {};
    } else {
      TooMany(s - {n - 1}, n - 1);
    }
  }
}
