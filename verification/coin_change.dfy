/** Section 1.2.2: counting the ways to change an amount with the first
    coin_types kinds of US coins (count_change). */
module CoinChange {

  /** first_denomination: the value in cents of coin kind k, from a fixed table
      with exactly the keys 1 to 6 (penny, nickel, dime, quarter, half dollar, dollar). */
  function FirstDenomination(kind: int): (d: nat)
    requires 1 <= kind <= 6
    ensures d in {1, 5, 10, 25, 50, 100}
    ensures 100 % d == 0
    ensures kind > 1 ==> FirstDenomination(kind - 1) < d
  {
    if kind == 1 then 1
    else if kind == 2 then 5
    else if kind == 3 then 10
    else if kind == 4 then 25
    else if kind == 5 then 50
    else 100
  }

  /** The kinds are numbered in increasing order of value. */
  lemma DenominationsIncrease(i: int, j: int)
    requires 1 <= i < j <= 6
    ensures FirstDenomination(i) < FirstDenomination(j)
  {
  }

  /** The inputs on which count_change returns. A non-positive amount returns
      before the table is consulted; a positive amount needs a kind count the
      table covers, otherwise the lookup yields no value (or, for a negative
      count, the recursion never reaches 0). */
  predicate InDomain(amount: int, coinTypes: int)
  {
    amount <= 0 || 0 <= coinTypes <= 6
  }

  /** count_change: no way to change a negative amount or to use no kinds of coin
      (tested first, so this includes amount 0 with no kinds); one way to change 0;
      otherwise the ways that skip the largest kind plus the ways that use at least
      one coin of it. Whenever there is at least one kind and the amount is not
      negative there is at least one way, all pennies included. */
  function CountChange(amount: int, coinTypes: int := 6): (r: nat)
    requires InDomain(amount, coinTypes)
    ensures amount >= 0 && coinTypes >= 1 ==> r >= 1
    decreases coinTypes, amount
  {
    if amount < 0 || coinTypes == 0 then 0
    else if amount == 0 then 1
    else
      CountChange(amount, coinTypes - 1)
      + CountChange(amount - FirstDenomination(coinTypes), coinTypes)
  }

  /** One step of the recurrence for a positive amount. */
  lemma TakeOutLargest(amount: int, coinTypes: int)
    requires amount > 0 && 1 <= coinTypes <= 6
    ensures CountChange(amount, coinTypes)
      == CountChange(amount, coinTypes - 1) + CountChange(amount - FirstDenomination(coinTypes), coinTypes)
  {
  }

  /** The base cases, in the order the code tests them. */
  lemma BaseCases(amount: int, coinTypes: int)
    requires InDomain(amount, coinTypes)
    ensures amount < 0 ==> CountChange(amount, coinTypes) == 0
    ensures coinTypes == 0 ==> CountChange(amount, coinTypes) == 0
    ensures CountChange(0, 0) == 0
    ensures amount == 0 && coinTypes != 0 ==> CountChange(amount, coinTypes) == 1
  {
  }

  /** With pennies only there is exactly one way to change any amount. */
  lemma {:induction false} PenniesOnly(amount: int)
    requires amount >= 0
    ensures CountChange(amount, 1) == 1
    decreases amount
  {
    if amount > 0 {
      PenniesOnly(amount - 1);
    }
  }

  /** With pennies and nickels the count is the number of nickels that fit, plus one. */
  lemma {:induction false} PenniesAndNickels(amount: int)
    requires amount >= 0
    ensures CountChange(amount, 2) == amount / 5 + 1
    decreases amount
  {
    if amount > 0 {
      PenniesOnly(amount);
      if amount >= 5 {
        PenniesAndNickels(amount - 5);
      }
    }
  }

  /** With pennies, nickels and dimes: for amount = 10q + s with 0 <= s < 10 the
      count is (q + 1) * (q + 1 + s / 5), one term per number of dimes used. */
  lemma UpToDimes(amount: int)
    requires amount >= 0
    ensures CountChange(amount, 3) == (amount / 10 + 1) * (amount / 10 + 1 + (amount % 10) / 5)
  {
    UpToDimesByDigits(amount, amount / 10, amount % 10);
  }

  lemma {:induction false} UpToDimesByDigits(amount: int, q: nat, s: int)
    requires 0 <= s < 10 && amount == 10 * q + s
    ensures CountChange(amount, 3) == (q + 1) * (q + 1 + s / 5)
    decreases q
  {
    var withoutDimes := 2 * q + s / 5 + 1;
    assert CountChange(amount, 2) == withoutDimes by {
      PenniesAndNickels(amount);
      assert amount == 5 * (2 * q + s / 5) + (s - 5 * (s / 5));
    }
    if q == 0 {
      assert (q + 1) * (q + 1 + s / 5) == withoutDimes;
      if amount > 0 {
        TakeOutLargest(amount, 3);
        assert CountChange(amount - 10, 3) == 0;
      }
    } else {
      var withDimes := CountChange(amount - 10, 3);
      assert CountChange(amount, 3) == withoutDimes + withDimes by {
        TakeOutLargest(amount, 3);
        assert FirstDenomination(3) == 10;
      }
      UpToDimesByDigits(amount - 10, q - 1, s);
      Expand(q, s / 5);
    }
  }

  /** The step from q - 1 to q of the closed form; the factors are spelt
      (q - 1 + 1) to match the recursive call's ensures term for term. */
  lemma Expand(q: int, t: int)
    ensures (q + 1) * (q + 1 + t) == 2 * q + t + 1 + (q - 1 + 1) * (q - 1 + 1 + t)
  {
  }

  /** Adding a kind of coin never lowers the count. */
  lemma MoreKindsNeverFewerWays(amount: int, coinTypes: int)
    requires 0 <= coinTypes < 6
    ensures CountChange(amount, coinTypes) <= CountChange(amount, coinTypes + 1)
  {
  }

  /** Changing exactly the value of the largest allowed coin adds one way to the
      count without that coin: the coin on its own. For the dollar coin this says
      that count_change(100, 6) is count_change(100, 5) + 1. */
  lemma LargestCoinAlone(coinTypes: int)
    requires 1 <= coinTypes <= 6
    ensures var d := FirstDenomination(coinTypes);
      CountChange(d, coinTypes) == CountChange(d, coinTypes - 1) + 1
  {
  }
}
