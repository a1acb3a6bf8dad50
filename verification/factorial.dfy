/** Section 1.2.1: factorial as a linear recursive process (fact_rec) and as an
    iterative process driven by an accumulator (fact_rec2 / fact_iter). */
module Factorial {

  /** The mathematical n!, with 0! = 1. Both forms below are measured against it. */
  function Factorial(n: nat): nat
  {
    if n == 0 then 1 else n * Factorial(n - 1)
  }

  /** fact_rec: n * (n - 1)!, stopping at 1. The code never reaches its base case
      for n <= 0, so the domain is n >= 1. */
  function FactRec(n: int): (r: int)
    requires n >= 1
    ensures r == Factorial(n)
    ensures r >= 1
    decreases n
  {
    if n == 1 then 1 else n * FactRec(n - 1)
  }

  /** fact_iter: multiplies the running product by counter, counter + 1, ..., max.
      Whatever the product so far, the result is that product times max! / (counter - 1)!,
      stated here without division. */
  function FactIter(product: int, counter: int, max: int): (r: int)
    ensures 1 <= counter <= max + 1 ==> r * Factorial(counter - 1) == product * Factorial(max)
    decreases max - counter
  {
    if counter > max then product
    else
      var r := FactIter(product * counter, counter + 1, max);
      if counter >= 1 then
        CancelFactor(r, counter, Factorial(counter - 1), product, Factorial(max));
        r
      else r
  }

  /** Removes a common non-zero factor from both sides of an equation. */
  lemma CancelFactor(r: int, c: int, f: int, p: int, g: int)
    requires c >= 1
    requires r * (c * f) == (p * c) * g
    ensures r * f == p * g
  {
    assert r * (c * f) == c * (r * f);
    assert (p * c) * g == c * (p * g);
  }

  /** fact_rec2: fact_iter(1, 1, n). Total in the code: for n <= 0 the first test
      counter > max already holds and the result is 1. */
  function FactRec2(n: int): (r: int)
    ensures r == Factorial(if n >= 1 then n else 0)
  {
    FactIter(1, 1, n)
  }

  /** The recursive and the iterative process compute the same function on the
      recursive form's domain. */
  lemma FactFormsAgree(n: int)
    requires n >= 1
    ensures FactRec2(n) == FactRec(n)
  {
  }
}
