/** Section 1.2.1: adding two numbers with nothing but increment and decrement,
    once as a linear recursive process (add1) and once as an iterative one (add2). */
module Addition {

  /** inc: the successor, the value that dec takes back to x. */
  function Inc(x: int): (r: int)
    ensures x < r && Dec(r) == x
  {
    x + 1
  }

  /** dec: the predecessor, the value that inc takes back to x. */
  function Dec(x: int): (r: int)
    ensures r < x
  {
    x - 1
  }

  /** inc and dec undo each other, which is what lets add2 move one unit at a
      time from its first operand to its second. */
  lemma IncDecInverse(x: int)
    ensures Dec(Inc(x)) == x
    ensures Inc(Dec(x)) == x
  {
  }

  /** add1: a deferred chain of a increments applied to b. The code stops only when
      a reaches 0, so a must be non-negative. */
  function Add1(a: int, b: int): (r: int)
    requires a >= 0
    ensures r == a + b
    decreases a
  {
    if a != 0 then Inc(Add1(Dec(a), b)) else b
  }

  /** add2: a tail call that transfers one unit from a to b per step; the state
      (a, b) is all there is to the process, and a + b never changes along it. */
  function Add2(a: int, b: int): (r: int)
    requires a >= 0
    ensures r == a + b
    decreases a
  {
    if a != 0 then Add2(Dec(a), Inc(b)) else b
  }

  /** The two processes compute the same sum. */
  lemma AddFormsAgree(a: int, b: int)
    requires a >= 0
    ensures Add1(a, b) == Add2(a, b)
  {
  }
}
