/** Section 1.2.2: Fibonacci numbers as a tree recursive process (fib_rec) and as
    an iterative process over a pair of state variables (fib_iter). */
module Fibonacci {

  /** The standard Fibonacci sequence: F(0) = 0, F(1) = 1. */
  function Fib(k: nat): nat
  {
    if k < 2 then k else Fib(k - 1) + Fib(k - 2)
  }

  /** fib_rec: the result is n itself for n = 1 and n = 2, and the sum of the two
      preceding values otherwise. With those base cases fib_rec(n) is F(n + 1)
      (fib_rec(2) = 2, not 1). The code recurses forever below 1. */
  function FibRec(n: int): (r: int)
    requires n >= 1
    ensures r == Fib(n + 1)
    decreases n
  {
    if n == 1 || n == 2 then n else FibRec(n - 1) + FibRec(n - 2)
  }

  /** fib_iter: starts from (a, b) = (0, 1) and applies a, b := a + b, a while the
      counter n is non-negative, decrementing it each time, so the loop body runs
      n + 1 times. After k rounds a = F(k) and a + b = F(k + 1). A negative n runs
      no rounds and gives 0. */
  method FibIter(n: int) returns (r: int)
    ensures n >= 0 ==> r == Fib(n + 1)
    ensures n < 0 ==> r == 0
    ensures n >= 1 ==> r == FibRec(n)
  {
    var a, b := 0, 1;
    var m := n;
    ghost var k: nat := 0;
    while m >= 0
      invariant m == n - k
      invariant n >= 0 ==> m >= -1
      invariant n < 0 ==> k == 0
      invariant a == Fib(k)
      invariant a + b == Fib(k + 1)
      decreases m + 1
    {
      a, b := a + b, a;
      m := m - 1;
      k := k + 1;
    }
    r := a;
  }
}
