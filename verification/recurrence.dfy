/** Exercise 1.11: f(n) = n for n < 3 and f(n) = f(n-1) + 2f(n-2) + 3f(n-3)
    otherwise, as a tree recursive process (fun1) and as an iterative process that
    carries the last three values forward (fun2). */
module Recurrence {

  /** fun1: the rule applied directly. Every integer is in its domain: below 3
      the result is the argument itself. From 0 upwards the values never fall
      below the argument, since the three previous values are each at least
      their own arguments and 6n - 14 >= n once n >= 3. */
  function Fun1(n: int): (r: int)
    ensures r >= n
    decreases n
  {
    if n >= 3 then Fun1(n - 1) + 2 * Fun1(n - 2) + 3 * Fun1(n - 3) else n
  }

  /** (x, y, z) is the window of values f(c - 1), f(c - 2), f(c - 3) for some c >= 3. */
  predicate Window(c: int, x: int, y: int, z: int)
  {
    c >= 3 && x == Fun1(c - 1) && y == Fun1(c - 2) && z == Fun1(c - 3)
  }

  /** The combination step_value(x, y, z) = x + 2y + 3z that advances the window:
      given the three values before c it returns f(c). */
  function StepValue(x: int, y: int, z: int): (r: int)
    ensures forall c {:trigger Window(c, x, y, z)} :: Window(c, x, y, z) ==> r == Fun1(c)
  {
    x + 2 * y + 3 * z
  }

  /** fun2: for n >= 3, starts from the window (f(2), f(1), f(0)) = (2, 1, 0) and
      slides it forward once for each counter in 3 .. n; below 3 it returns n.
      Either way the result is f(n) as the direct rule defines it. */
  method Fun2(n: int) returns (r: int)
    ensures r == Fun1(n)
  {
    r := n;
    if n >= 3 {
      var fn1, fn2, fn3 := 2, 1, 0;
      for counter := 3 to n + 1
        invariant fn1 == Fun1(counter - 1)
        invariant fn2 == Fun1(counter - 2)
        invariant fn3 == Fun1(counter - 3)
      {
        assert Window(counter, fn1, fn2, fn3);
        fn1, fn2, fn3 := StepValue(fn1, fn2, fn3), fn1, fn2;
      }
      r := fn1;
    }
  }
}
