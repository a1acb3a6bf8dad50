/** Exercise 1.10: the variant of Ackermann's function used in the exercise. Its
    base cases (A(x, 0) = 0, A(0, y) = 2y, A(x, 1) = 2) differ from the textbook
    Ackermann function. */
module Ackermann {

  /** b raised to the power e. */
  function Pow(b: int, e: nat): int
  {
    if e == 0 then 1 else b * Pow(b, e - 1)
  }

  /** Exponents add when powers of the same base multiply. */
  lemma {:induction false} PowAdd(b: int, m: nat, n: nat)
    ensures Pow(b, m + n) == Pow(b, m) * Pow(b, n)
    decreases m
  {
    if m > 0 {
      PowAdd(b, m - 1, n);
      assert Pow(b, m + n) == b * Pow(b, m - 1 + n);
    }
  }

  /** A tower of y twos: 2, 2^2, 2^2^2, ... */
  function Tower(y: nat): nat
    requires y >= 1
  {
    if y == 1 then 2 else
      var t := Tower(y - 1);
      PowOfTwoPositive(t);
      Pow(2, t)
  }

  /** Every power of two is positive, so a tower can be the next exponent. */
  lemma {:induction false} PowOfTwoPositive(e: nat)
    ensures Pow(2, e) >= 1
  {
    if e > 0 {
      PowOfTwoPositive(e - 1);
    }
  }

  /** The arguments on which A returns. Each base case answers whatever the other
      argument is: y = 0 for every x, x = 0 for every y (negative ones included),
      y = 1 for every x. Otherwise the general case returns only when x >= 1 and
      y >= 2: a negative y with x >= 1 never reaches y = 0 or y = 1, and a
      negative x never reaches x = 0. */
  predicate Returns(x: int, y: int)
  {
    y == 0 || x == 0 || y == 1 || (x >= 1 && y >= 2)
  }

  /** A: the tests are made in the order y = 0, x = 0, y = 1, and the general case
      calls A twice. It terminates on its whole domain by the lexicographic order
      on (x, y), and it never returns less than twice its second argument. */
  function A(x: int, y: int): (r: int)
    requires Returns(x, y)
    ensures r >= 2 * y
    ensures x >= 0 && y >= 0 ==> r >= 0
    decreases x, y
  {
    if y == 0 then 0
    else if x == 0 then 2 * y
    else if y == 1 then 2
    else A(x - 1, A(x, y - 1))
  }

  /** The three base cases, each over all values of the other argument, negative
      ones included. */
  lemma BaseCases(x: int, y: int)
    ensures A(x, 0) == 0
    ensures A(0, y) == 2 * y
    ensures A(x, 1) == 2
  {
  }

  /** The second argument 2 is a fixed point of the recursion: A(x, 2) = 4 for every x. */
  lemma {:induction false} SecondArgumentTwo(x: nat)
    ensures A(x, 2) == 4
  {
    if x > 0 {
      assert A(x, 2) == A(x - 1, A(x, 1));
      SecondArgumentTwo(x - 1);
    }
  }

  /** A(1, y) doubles y times: A(1, y) = 2^y for y >= 1. */
  lemma {:induction false} FirstArgumentOne(y: nat)
    requires y >= 1
    ensures A(1, y) == Pow(2, y)
  {
    if y > 1 {
      FirstArgumentOne(y - 1);
      assert A(1, y) == A(0, A(1, y - 1)) == 2 * A(1, y - 1);
    }
  }

  /** A(2, y) is a tower of y twos for y >= 1. */
  lemma {:induction false} FirstArgumentTwo(y: nat)
    requires y >= 1
    ensures A(2, y) == Tower(y)
  {
    if y > 1 {
      FirstArgumentTwo(y - 1);
      var t := A(2, y - 1);
      assert A(2, y) == A(1, t);
      FirstArgumentOne(t);
    }
  }

  /** The values the exercise asks for: A(1, 10) = 2^10. */
  lemma FirstExerciseValue()
    ensures A(1, 10) == 1024
  {
    FirstArgumentOne(10);
  }

  /** A(2, 4) is a tower of four twos, 2^16. */
  lemma SecondExerciseValue()
    ensures A(2, 4) == 65536
  {
    assert Pow(2, 16) == 65536 by {
      assert Pow(2, 8) == 256;
      PowAdd(2, 8, 8);
    }
    assert Tower(4) == 65536 by {
      assert Tower(2) == 4;
      assert Tower(3) == 16;
    }
    FirstArgumentTwo(4);
  }

  /** A(3, 3) = A(2, A(3, 2)) = A(2, 4), the same number as A(2, 4). */
  lemma ThirdExerciseValue()
    ensures A(3, 3) == 65536
  {
    SecondArgumentTwo(3);
    assert A(3, 3) == A(2, A(3, 2));
    SecondExerciseValue();
  }
}
