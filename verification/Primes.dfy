/** The prime search that sizes the engram hash columns. */
module Primes {
  import opened Arithmetic

  predicate Divides(d: nat, n: nat)
    requires d > 0
  {
    n % d == 0
  }

  ghost predicate Prime(n: nat) {
    n >= 2 && forall d {:trigger Divides(d, n)} :: 2 <= d < n ==> !Divides(d, n)
  }

  // Trial division by odd numbers from `d` on, up to the square root.
  predicate TrialFrom(n: nat, d: nat)
    requires d >= 3
    decreases n - d
  {
    d * d > n || (assert d * d >= 3 * d; !Divides(d, n) && TrialFrom(n, d + 2))
  }

  predicate Passes(n: nat) { n % 2 != 0 && TrialFrom(n, 3) }

  lemma {:induction false} TrialRejectsFactors(n: nat, d: nat, f: nat)
    requires d >= 3 && d % 2 == 1 && f % 2 == 1 && d <= f && f * f <= n && TrialFrom(n, d)
    ensures !Divides(f, n)
    decreases f - d
  {
    if d < f {
      SquareMonotone(d, f);
      TrialRejectsFactors(n, d + 2, f);
    } else {
      assert d == f;
    }
  }

  lemma SquareMonotone(a: nat, b: nat)
    requires a <= b
    ensures a * a <= b * b
  {
    assert b * b - a * a == (b - a) * (b + a);
  }

  lemma {:induction false} PrimesPassTrial(n: nat, d: nat)
    requires Prime(n) && d >= 3
    ensures TrialFrom(n, d)
    decreases n - d
  {
    if d * d <= n {
      assert d * d >= 3 * d;
      assert !Divides(d, n);
      PrimesPassTrial(n, d + 2);
    }
  }

  // The product of a positive number and an integer lies in [0, d) only if it is 0.
  lemma SmallMultiple(d: nat, t: int)
    requires d > 0 && 0 <= d * t < d
    ensures t == 0
  {
    MultipleBounds(t, d);
  }

  lemma MultipleDivides(d: nat, q: nat, n: nat)
    requires d > 0 && n == d * q
    ensures Divides(d, n) && n / d == q
  {
    assert n == d * (n / d) + n % d;
    assert d * (q - n / d) == n % d;
    SmallMultiple(d, q - n / d);
  }

  lemma Cofactor(d: nat, n: nat) returns (q: nat)
    requires d > 0 && Divides(d, n)
    ensures n == d * q
  {
    q := n / d;
  }

  // A proper factor comes with a cofactor, and the smaller of the two is at most the square root.
  lemma SmallFactor(n: nat, e: nat) returns (f: nat)
    requires 2 <= e < n && Divides(e, n)
    ensures 2 <= f && f * f <= n && Divides(f, n)
  {
    var q := Cofactor(e, n);
    assert q <= 1 ==> e * q <= e;
    if e <= q {
      f := e;
      ProductMonotone(e, e, q);
    } else {
      f := q;
      ProductMonotone(q, q, e);
      MultipleDivides(q, e, n);
    }
  }

  lemma ProductMonotone(k: nat, a: nat, b: nat)
    requires a <= b
    ensures k * a <= k * b
  {
    assert k * b == k * a + k * (b - a);
  }

  /** From 3 on, the search's test is exactly primality. */
  lemma PassesIsPrime(n: nat)
    requires n >= 3
    ensures Passes(n) <==> Prime(n)
  {
    if Prime(n) {
      assert !Divides(2, n);
      PrimesPassTrial(n, 3);
    }
    if Passes(n) && exists e :: 2 <= e < n && Divides(e, n) {
      var e :| 2 <= e < n && Divides(e, n);
      var f := SmallFactor(n, e);
      OddFactor(n, f);
      TrialRejectsFactors(n, 3, f);
    }
  }

  lemma OddFactor(n: nat, f: nat)
    requires n % 2 == 1 && f > 0 && Divides(f, n)
    ensures f % 2 == 1
  {
    var q := Cofactor(f, n);
    EvenProduct(f, q);
  }

  lemma EvenProduct(f: nat, q: nat)
    ensures f % 2 == 0 ==> f * q % 2 == 0
  {
    var h := f / 2;
    assert f % 2 == 0 ==> f * q == 2 * (h * q);
  }

  // ----- There is always a next prime -----

  function Factorial(n: nat): (f: nat)
    ensures f > 0
  {
    if n == 0 then 1 else n * Factorial(n - 1)
  }

  lemma {:induction false} FactorialDivisible(n: nat, d: nat)
    requires 1 <= d <= n
    ensures Divides(d, Factorial(n))
  {
    if d == n {
      MultipleDivides(n, Factorial(n - 1), Factorial(n));
    } else {
      FactorialDivisible(n - 1, d);
      var q := Cofactor(d, Factorial(n - 1));
      Regroup(n, d, q);
      MultipleDivides(d, n * q, Factorial(n));
    }
  }

  lemma Regroup(a: nat, b: nat, c: nat)
    ensures a * (b * c) == b * (a * c)
  {}

  ghost function LeastFactor(n: nat, d: nat): (f: nat)
    requires 2 <= d <= n && forall e {:trigger Divides(e, n)} :: 2 <= e < d ==> !Divides(e, n)
    ensures d <= f <= n && Divides(f, n) && forall e {:trigger Divides(e, n)} :: 2 <= e < f ==> !Divides(e, n)
    decreases n - d
  {
    if Divides(d, n) then d else
      assert d != n by { assert Divides(n, n); }
      LeastFactor(n, d + 1)
  }

  lemma DividesTransitive(a: nat, b: nat, n: nat)
    requires a > 0 && b > 0 && Divides(a, b) && Divides(b, n)
    ensures Divides(a, n)
  {
    var p := Cofactor(a, b);
    var q := Cofactor(b, n);
    assert (a * p) * q == a * (p * q);
    MultipleDivides(a, p * q, n);
  }

  // Euclid: the least factor of n! + 1 is a prime above n.
  ghost function PrimeAbove(n: nat): (p: nat)
    requires n >= 2
    ensures p > n && Prime(p)
  {
    var m := Factorial(n) + 1;
    var f := LeastFactor(m, 2);
    assert Prime(f) by {
      forall d | 2 <= d < f ensures !Divides(d, f) {
        if Divides(d, f) { DividesTransitive(d, f, m); }
      }
    }
    assert f > n by {
      if f <= n {
        FactorialDivisible(n, f);
        NotBothDivide(Factorial(n), f);
      }
    }
    f
  }

  lemma NotBothDivide(n: nat, f: nat)
    requires f >= 2 && Divides(f, n)
    ensures !Divides(f, n + 1)
  {
    var q := Cofactor(f, n);
    if Divides(f, n + 1) {
      var r := Cofactor(f, n + 1);
      assert f * (r - q) == f * r - f * q == 1;
      SmallMultiple(f, r - q);
    }
  }

  function SearchFrom(n: nat, ghost bound: nat): (p: nat)
    requires n <= bound && Passes(bound)
    ensures n <= p && Passes(p) && forall q {:trigger Passes(q)} :: n <= q < p ==> !Passes(q)
    decreases bound - n
  {
    if Passes(n) then n else SearchFrom(n + 1, bound)
  }

  // The first candidate above `after` that passes trial division.
  function NextPrime(after: nat): (p: nat)
    ensures after < p && Passes(p) && forall q {:trigger Passes(q)} :: after < q < p ==> !Passes(q)
  {
    ghost var bound := PrimeAbove(if after < 2 then 2 else after);
    PassesIsPrime(bound);
    SearchFrom(after + 1, bound)
  }

  ghost predicate LeastPrimeAbove(after: nat, p: nat) {
    after < p && Prime(p) && forall q {:trigger Prime(q)} :: after < q < p ==> !Prime(q)
  }

  /** The search yields the least prime above its argument exactly for arguments of at least 2: above 0
      it yields 1, and above 1 it yields 3, since it skips every even number. */
  lemma NextPrimeIsTheLeast(after: nat)
    ensures LeastPrimeAbove(after, NextPrime(after)) <==> after >= 2
  {
    var p := NextPrime(after);
    if after >= 2 {
      PassesIsPrime(p);
      forall q | after < q < p ensures !Prime(q) {
        PassesIsPrime(q);
        assert !Passes(q);
      }
    } else if after == 0 {
      assert Passes(1);
    } else {
      assert !Passes(2);
      assert Prime(2);
    }
  }
}
