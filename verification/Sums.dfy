/** Finite sums over row numbers, and sizes of sets. */
module Sums {

  ghost function SumTo(f: nat -> int, n: nat): int {
    if n == 0 then 0 else SumTo(f, n - 1) + f(n - 1)
  }

  lemma {:induction false} SumToSame(f: nat -> int, g: nat -> int, n: nat)
    requires forall i: nat :: i < n ==> f(i) == g(i)
    ensures SumTo(f, n) == SumTo(g, n)
  {
    if n > 0 {
      SumToSame(f, g, n - 1);
    }
  }

  /** Changing one term changes the sum by exactly that much. */
  lemma {:induction false} SumToChange(f: nat -> int, g: nat -> int, n: nat, k: nat)
    requires k < n
    requires forall i: nat :: i < n && i != k ==> f(i) == g(i)
    ensures SumTo(g, n) == SumTo(f, n) - f(k) + g(k)
  {
    if k == n - 1 {
      SumToSame(f, g, n - 1);
    } else {
      SumToChange(f, g, n - 1, k);
    }
  }

  lemma {:induction false} SubsetSize<T>(a: set<T>, b: set<T>)
    requires a <= b
    ensures |a| <= |b|
  {
    if a != {} {
      var x :| x in a;
      SubsetSize(a - {x}, b - {x});
    }
  }
}
