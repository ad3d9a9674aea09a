/** The calculator module of the code under test: the integer factorial
    and the zero-divisor guard of the division. */
module Calculator {
  import opened Wrappers

  datatype Error = ValueError(message: string)

  /** n!: the product 1 * 2 * ... * n, with 0! = 1. */
  function Fact(n: nat): (r: nat)
    ensures r >= 1
  {
    if n == 0 then 1 else n * Fact(n - 1)
  }

  /** `factorial(n)`: ValueError for a negative n, 1 for 0 and 1, otherwise
      the product of 2..n built up by a loop. */
  method Factorial(n: int) returns (r: Result<nat, Error>)
    ensures n < 0 <==> r.Failure?
    ensures n < 0 ==> r.error == ValueError("Factorial is not defined for negative numbers")
    ensures n >= 0 ==> r == Success(Fact(n))
  {
    if n < 0 {
      return Failure(ValueError("Factorial is not defined for negative numbers"));
    }
    if n == 0 || n == 1 {
      return Success(1);
    }
    var result: nat := 1;
    for i := 2 to n + 1
      invariant result == Fact(i - 1)
    {
      result := result * i;
    }
    return Success(result);
  }

  /** The two base cases and the recurrence the loop realises. */
  lemma FactorialValues(n: nat)
    ensures Fact(0) == 1 && Fact(1) == 1
    ensures Fact(n + 1) == (n + 1) * Fact(n)
  {
  }

  /** n! is a multiple of every k in 1..n. */
  lemma {:induction false} FactMultiple(n: nat, k: nat)
    requires 1 <= k <= n
    ensures exists q: nat :: Fact(n) == k * q
  {
    if k == n {
      assert Fact(n) == k * Fact(n - 1);
    } else {
      FactMultiple(n - 1, k);
      var q: nat :| Fact(n - 1) == k * q;
      assert Fact(n) == k * (n * q);
    }
  }

  /** n! never decreases. */
  lemma {:induction false} FactMonotone(m: nat, n: nat)
    requires m <= n
    ensures Fact(m) <= Fact(n)
    decreases n
  {
    if m < n {
      FactMonotone(m, n - 1);
      assert Fact(n) == n * Fact(n - 1);
    }
  }

  /** `divide(a, b)`: ValueError exactly when `b == 0`, otherwise the quotient. */
  function Divide(a: real, b: real): (r: Result<real, Error>)
    ensures r.Failure? <==> b == 0.0
    ensures r.Failure? ==> r.error == ValueError("Cannot divide by zero")
    ensures r.Success? ==> r.value * b == a
  {
    if b == 0.0 then Failure(ValueError("Cannot divide by zero")) else Success(a / b)
  }
}
