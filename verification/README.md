# Procedures and the processes they generate — a verified model

This project models `012_procedures_and_processes.py`, a set of exercises from
section 1.2 of *Structure and Interpretation of Computer Programs* written in
Python. Each exercise computes one integer recurrence, usually twice: once as a
recursive process and once as an iterative process (an accumulator, a rolling
window of values, or a loop). The model gives each recursive form as a Dafny
`function`, each loop as a `method` with loop invariants, and proves the two
forms equal to each other and to an independent mathematical definition.

| file | module | exercise |
|---|---|---|
| `factorial.dfy` | `Factorial` | `fact_rec`, `fact_rec2` / `fact_iter` against n! |
| `addition.dfy` | `Addition` | `inc`, `dec`, `add1`, `add2` against a + b |
| `ackermann.dfy` | `Ackermann` | exercise 1.10, the function `A`, against powers and towers of 2 |
| `fibonacci.dfy` | `Fibonacci` | `fib_rec`, `fib_iter` against the standard Fibonacci numbers |
| `coin_change.dfy` | `CoinChange` | `count_change` and its table of six US coins |
| `recurrence.dfy` | `Recurrence` | exercise 1.11, `fun1` and `fun2` |
| `pascal.dfy` | `Pascal` | exercise 1.12, `pascal_triangle`, `pascal_triangle2` against binomial coefficients |

Python integers are unbounded, so every quantity is a Dafny `int` or `nat` and
nothing wraps around. Where the code only returns on part of its inputs (it
recurses forever, or reads a missing table entry or an unassigned variable
elsewhere), that part is the member's `requires` clause; where the code returns
on every input, so does the model.

Points where the code differs from the usual statement of the exercises, all
modelled as the code behaves:

- `fib_rec` returns n for n = 1 and n = 2, so `fib_rec(2)` is 2 and `fib_rec(n)`
  is the standard F(n + 1); `fib_iter(n)` agrees with it.
- `count_change` tests "negative amount or no kinds of coin" before "amount is
  zero", so `count_change(0, 0)` is 0, not 1.
- `fact_rec2` returns 1 for every n <= 0 (the accumulator loop stops at once),
  although `fact_rec` does not return there.
- `fun1` and `fun2` return n for every n < 3, negative n included, and agree on
  all integers, not only on n >= 0.
- `pascal_triangle2(1)` (and any n <= 1) fails in the code: it reads `row` (at
  line 229 when it prints, at line 231 when `view` is 0) before anything assigns
  it, since only the loop does. Its domain is therefore n >= 2, while
  `pascal_triangle(n)` returns the single row `[1]` for every n <= 1.

## Model

| member | source | states |
|---|---|---|
| `Factorial.FactRec` | 012_procedures_and_processes.py:8-12 | for n >= 1 the linear recursion returns n! (and so at least 1) |
| `Factorial.FactIter` | 012_procedures_and_processes.py:20-23 | the accumulator loop from counter to max returns the product so far times max!/(counter-1)!, stated without division, whenever 1 <= counter <= max + 1 |
| `Factorial.FactRec2` | 012_procedures_and_processes.py:19-24 | `fact_iter(1, 1, n)` is n! for n >= 1 and 1 for every n <= 0 |
| `Factorial.FactFormsAgree` | 012_procedures_and_processes.py:8-24 | the recursive and the iterative factorial agree for every n >= 1 |
| `Addition.Inc` | 012_procedures_and_processes.py:29 | `inc` returns a larger number, the one that `dec` takes back to its argument |
| `Addition.Dec` | 012_procedures_and_processes.py:30 | `dec` returns a smaller number; with `Inc`'s contract, the one that `inc` takes back to its argument |
| `Addition.IncDecInverse` | 012_procedures_and_processes.py:29-30 | `inc` and `dec` undo each other in both orders |
| `Addition.Add1` | 012_procedures_and_processes.py:34-38 | the deferred chain of increments returns a + b for every a >= 0 and every b |
| `Addition.Add2` | 012_procedures_and_processes.py:43-47 | moving one unit per step from a to b returns a + b for every a >= 0 and every b |
| `Addition.AddFormsAgree` | 012_procedures_and_processes.py:34-47 | the linear recursive and the iterative addition agree |
| `Ackermann.A` | 012_procedures_and_processes.py:54-65 | `A` is defined on exactly the integer arguments where the code returns (y = 0, x = 0, y = 1, or x >= 1 and y >= 2), terminates there by the lexicographic order on (x, y), returns at least 2y, and returns a natural number for natural arguments |
| `Ackermann.BaseCases` | 012_procedures_and_processes.py:56-61 | A(x, 0) = 0 for every integer x, A(0, y) = 2y for every integer y, A(x, 1) = 2 for every integer x, negative ones included |
| `Ackermann.SecondArgumentTwo` | 012_procedures_and_processes.py:60-63 | A(x, 2) = 4 for every x |
| `Ackermann.FirstArgumentOne` | 012_procedures_and_processes.py:54-65 | A(1, y) = 2^y for every y >= 1 |
| `Ackermann.FirstArgumentTwo` | 012_procedures_and_processes.py:54-65 | A(2, y) is a tower of y twos for every y >= 1 |
| `Ackermann.FirstExerciseValue` | 012_procedures_and_processes.py:67 | A(1, 10) = 1024 |
| `Ackermann.SecondExerciseValue` | 012_procedures_and_processes.py:68 | A(2, 4) = 65536 |
| `Ackermann.ThirdExerciseValue` | 012_procedures_and_processes.py:69 | A(3, 3) = 65536 |
| `Fibonacci.FibRec` | 012_procedures_and_processes.py:77-81 | for n >= 1 the tree recursion with bases fib(1) = 1, fib(2) = 2 returns the standard Fibonacci number F(n + 1) |
| `Fibonacci.FibIter` | 012_procedures_and_processes.py:92-97 | the pair loop returns F(n + 1) for n >= 0 (n + 1 rounds), 0 for n < 0, and equals `fib_rec(n)` for n >= 1 |
| `CoinChange.FirstDenomination` | 012_procedures_and_processes.py:106-113 | the table's value for each key 1..6 is one of the six coins 1, 5, 10, 25, 50, 100, divides a dollar, and exceeds the value for the key below |
| `CoinChange.DenominationsIncrease` | 012_procedures_and_processes.py:106-113 | the table's values (1, 5, 10, 25, 50, 100 cents for keys 1..6) strictly increase with the key |
| `CoinChange.CountChange` | 012_procedures_and_processes.py:103-132 | on the inputs where the code returns (amount <= 0, or 0..6 kinds) the count is a natural number, and at least 1 whenever the amount is not negative and there is at least one kind |
| `CoinChange.BaseCases` | 012_procedures_and_processes.py:119-123 | a negative amount gives 0, no kinds gives 0 (count_change(0, 0) included), amount 0 with some kinds gives 1 |
| `CoinChange.PenniesOnly` | 012_procedures_and_processes.py:119-131 | with pennies only, every amount >= 0 has exactly one way |
| `CoinChange.PenniesAndNickels` | 012_procedures_and_processes.py:119-131 | with pennies and nickels, an amount a >= 0 has a/5 + 1 ways |
| `CoinChange.UpToDimes` | 012_procedures_and_processes.py:119-131 | with pennies, nickels and dimes, an amount 10q + s (0 <= s < 10) has (q + 1)(q + 1 + s/5) ways |
| `CoinChange.MoreKindsNeverFewerWays` | 012_procedures_and_processes.py:128-131 | allowing one more kind of coin never lowers the count |
| `CoinChange.LargestCoinAlone` | 012_procedures_and_processes.py:119-131 | at an amount equal to the largest allowed coin, that coin adds exactly one way; for kind 6 this is count_change(100, 6) = count_change(100, 5) + 1 |
| `Recurrence.Fun1` | 012_procedures_and_processes.py:143-147 | the direct rule is defined on every integer and never returns less than its argument |
| `Recurrence.StepValue` | 012_procedures_and_processes.py:163 | given the window f(c - 1), f(c - 2), f(c - 3) of the rule for any c >= 3, `step_value` returns f(c) |
| `Recurrence.Fun2` | 012_procedures_and_processes.py:158-173 | the window loop starting from (2, 1, 0) returns exactly fun1(n), for every integer n |
| `Pascal.PascalRowIsBinomial` | 012_procedures_and_processes.py:188-204 | in any triangle with 1 on the edges and each inner entry the sum of the two above, row i is C(i, 0) .. C(i, i) |
| `Pascal.PascalIsBinomial` | 012_procedures_and_processes.py:188-211 | a sequence of rows has the triangle's shape if and only if every row is its binomial row |
| `Pascal.CellValue` | 012_procedures_and_processes.py:190-191 | defined on every i where Python's indexing answers (1 - len(row) <= i < len(row), negative i counting from the end); applied to binomial row k at a position 1 <= i <= k, the only positions the caller passes, `cell_value` returns C(k + 1, i), the entry at i of the next row |
| `Pascal.PascalTriangle` | 012_procedures_and_processes.py:188-211 | returns max(n, 1) rows; row i has i + 1 entries, 1 at both ends, inner entries the sum of the two above, and equals C(i, 0) .. C(i, i) |
| `Pascal.PascalTriangle2` | 012_procedures_and_processes.py:213-231 | for n >= 2 returns row n - 1, the last row `pascal_triangle(n)` returns: n entries, 1 at both ends |

## Left out

- Console output: the module-level `print` calls and the `view` argument of
  both Pascal functions only print; they carry no result and are not modelled.
- Lines 177-181 of the source are prose without comment markers; they are read
  as the comment they evidently are.
- Python's failures on inputs outside each domain (recursion that never
  reaches a base case, the `None` that the coin table's `.get` returns for a
  key outside 1..6, the unassigned `row` in `pascal_triangle2`, the interpreter's
  recursion-depth limit) are excluded by `requires` clauses rather than modelled.
- Running time: the exponential cost of `fib_rec` and `count_change` and the
  stack depth of the linear recursions are not behaviour of the results.
- CoinChange.CountChange: the number the code prints for `count_change(100)`
  (293) is not stated; the verifier evaluates the whole tree recursion whenever
  both arguments are literals, which is too costly. The relation of that value
  to `count_change(100, 5)` is stated by `CoinChange.LargestCoinAlone` for a
  symbolic kind only: applying it at the literal kind 6 brings back the same
  full evaluation.
- `fun1(10)` and `fib_rec(5)`, also printed by the code, are not stated as
  literal values; the general equalities cover them.
