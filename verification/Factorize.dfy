/** Factorisation by trial division (`factorize` in examples/distributed-computing/worker.py). */
module Factorize {

  predicate Divides(d: int, n: int)
    requires d != 0
  {
    n % d == 0
  }

  ghost predicate Prime(n: int) {
    n >= 2 && forall d :: 2 <= d < n ==> !Divides(d, n)
  }

  function Product(s: seq<int>): int {
    if s == [] then 1 else s[0] * Product(s[1..])
  }

  ghost predicate AllPrime(s: seq<int>) {
    forall i :: 0 <= i < |s| ==> Prime(s[i])
  }

  ghost predicate Sorted(s: seq<int>) {
    forall i, j :: 0 <= i < j < |s| ==> s[i] <= s[j]
  }

  /** The exact integer square root, which `int(sqrt(n))` stands for. */
  ghost predicate IsRoot(r: int, n: int) {
    r >= 0 && r * r <= n < (r + 1) * (r + 1)
  }

  // ---------------------------------------------------------------- the code

  method Sqrt(n: int) returns (r: int)
    requires n >= 0
    ensures IsRoot(r, n)
  {
    r := 0;
    while (r + 1) * (r + 1) <= n
      invariant 0 <= r && r * r <= n
      decreases n - r * r
    {
      r := r + 1;
    }
  }

  method IsPrime(n: int) returns (prime: bool)
    requires n >= 2
    ensures prime <==> Prime(n)
  {
    var root := Sqrt(n);
    RootIsEnough(n, root);
    prime := true;
    for x := 2 to root + 1
      invariant prime <==> forall d :: 2 <= d < x ==> !Divides(d, n)
    {
      assert Divides(x, n) <==> n % x == 0;
      if n % x == 0 { prime := false; }
    }
  }

  /** For any n, the prime factors in order; there are none of a number below 2. */
  method Factorize(n: int) returns (primes: seq<int>)
    ensures AllPrime(primes) && Sorted(primes)
    ensures n >= 1 ==> Product(primes) == n
    ensures n <= 1 ==> primes == []
    decreases n
  {
    primes := [];
    var candidate := 2;
    while primes == [] && 2 <= candidate < n + 1
      invariant 2 <= candidate
      invariant primes == [] && n >= 2 ==> candidate <= n && forall d :: 2 <= d < candidate ==> !Divides(d, n)
      invariant AllPrime(primes) && Sorted(primes)
      invariant primes != [] ==> n >= 2 && Product(primes) == n
      decreases n + 1 - candidate
    {
      if n % candidate == 0 {
        LeastDivisorIsPrime(n, candidate);
        QuotientBound(n, candidate);
        var prime := IsPrime(candidate);
        if prime {
          var rest := Factorize(n / candidate);
          LeastFirst(n, candidate, rest);
          hide Product;
          primes := primes + [candidate] + rest;
        }
      }
      candidate := candidate + 1;
    }
  }

  // ------------------------------------------------------------ divisibility

  lemma Monotone(a: int, b: int, c: int)
    requires a >= 0 && b <= c
    ensures a * b <= a * c
  {}

  lemma Distribute(a: int, b: int, c: int)
    ensures a * (b - c) == a * b - a * c
  {}

  lemma Multiple(d: int, k: int)
    requires d >= 1
    ensures (d * k) % d == 0 && d * k / d == k
  {
    var q, r := d * k / d, (d * k) % d;
    assert d * k == d * q + r;
    Distribute(d, k, q);
    if k > q { Monotone(d, 1, k - q); }
    if k < q { Monotone(d, k - q, -1); }
  }

  lemma DivisorBound(d: int, n: int)
    requires d >= 1 && n >= 1 && Divides(d, n)
    ensures d <= n
  {}

  lemma QuotientIsSmaller(n: int, d: int)
    requires n >= 1 && d >= 2 && Divides(d, n)
    ensures 1 <= n / d < n && n == d * (n / d)
  {}

  lemma QuotientBound(n: int, d: int)
    requires n >= 1 && d >= 2 && Divides(d, n)
    ensures 1 <= n / d < n
  {}

  lemma DividesMultiple(d: int, n: int, k: int)
    requires d >= 1 && Divides(d, n)
    ensures Divides(d, n * k)
  {
    assert n * k == d * ((n / d) * k);
    Multiple(d, (n / d) * k);
  }

  lemma DividesDifference(d: int, m: int, n: int)
    requires d >= 1 && Divides(d, m) && Divides(d, n)
    ensures Divides(d, m - n)
  {
    assert m - n == d * (m / d - n / d);
    Multiple(d, m / d - n / d);
  }

  lemma Transitive(d: int, m: int, n: int)
    requires d >= 1 && m >= 1 && Divides(d, m) && Divides(m, n)
    ensures Divides(d, n)
  {
    DividesMultiple(d, m, n / m);
  }

  /** If no number up to the square root divides n, none below n does: of each pair of factors one is small. */
  lemma RootIsEnough(n: int, r: int)
    requires n >= 2 && IsRoot(r, n)
    ensures Prime(n) <==> forall d :: 2 <= d < r + 1 ==> !Divides(d, n)
  {
    if r >= n { Monotone(r, 2, r); }
    forall d | r < d < n && Divides(d, n) ensures 2 <= n / d < r + 1 && Divides(n / d, n) {
      SmallFactor(n, r, d);
    }
  }

  lemma SmallFactor(n: int, r: int, d: int)
    requires n >= 2 && IsRoot(r, n) && r < d < n && Divides(d, n)
    ensures 2 <= n / d < r + 1 && Divides(n / d, n)
  {
    var k := n / d;
    assert n == d * k;
    if k <= 1 { Monotone(d, k, 1); }
    Multiple(k, d);
    if k > r {
      Monotone(r + 1, r + 1, k);
      Monotone(k, r + 1, d);
    }
  }

  lemma LeastDivisorIsPrime(n: int, c: int)
    requires n >= 2 && c >= 2 && Divides(c, n) && forall d :: 2 <= d < c ==> !Divides(d, n)
    ensures Prime(c)
  {
    forall d | 2 <= d < c ensures !Divides(d, c) {
      if Divides(d, c) { Transitive(d, c, n); }
    }
  }

  lemma {:induction false} FactorDivides(s: seq<int>, i: nat)
    requires i < |s| && s[i] >= 1
    ensures Divides(s[i], Product(s))
  {
    if i == 0 {
      Multiple(s[0], Product(s[1..]));
    } else {
      FactorDivides(s[1..], i - 1);
      DividesMultiple(s[i], Product(s[1..]), s[0]);
    }
  }

  lemma NoSmallerFactor(n: int, c: int, rest: seq<int>)
    requires n >= 2 && c >= 2 && Divides(c, n) && forall d :: 2 <= d < c ==> !Divides(d, n)
    requires AllPrime(rest) && Product(rest) == n / c
    ensures forall i :: 0 <= i < |rest| ==> c <= rest[i]
  {
    forall i | 0 <= i < |rest| ensures c <= rest[i] {
      FactorDivides(rest, i);
      DividesMultiple(rest[i], n / c, c);
      assert n / c * c == n;
    }
  }

  lemma LeastFirst(n: int, c: int, rest: seq<int>)
    requires n >= 2 && c >= 2 && Divides(c, n) && forall d :: 2 <= d < c ==> !Divides(d, n)
    requires AllPrime(rest) && Sorted(rest) && Product(rest) == n / c
    ensures AllPrime([c] + rest) && Sorted([c] + rest) && Product([c] + rest) == n
  {
    LeastDivisorIsPrime(n, c);
    NoSmallerFactor(n, c, rest);
    QuotientIsSmaller(n, c);
    assert ([c] + rest)[1..] == rest;
  }

  // -------------------------------------------------------------- uniqueness

  /** Euclid's lemma, by the remainders of p. */
  lemma {:induction false} PrimeDividesFactor(p: int, a: int, b: int)
    requires Prime(p) && a >= 0 && Divides(p, a * b)
    ensures Divides(p, a) || Divides(p, b)
    decreases a
  {
    if a >= p {
      RemainderOfFactor(p, a, b);
      RemainderTwice(p, a);
      PrimeDividesFactor(p, a % p, b);
    } else if a == 1 {
      assert a * b == b;
    } else if a > 1 {
      assert !Divides(a, p);
      RemainderOfPrime(p, a, b);
      PrimeDividesFactor(p, p % a, b);
      if Divides(p, p % a) { DivisorBound(p, p % a); }
    }
  }

  lemma Expand(a: int, b: int, p: int, q: int)
    ensures (p - a * q) * b == p * b - (a * b) * q
  {
    Distribute(b, p, a * q);
    assert b * (a * q) == (a * b) * q;
  }

  lemma RemainderOfFactor(p: int, a: int, b: int)
    requires p >= 1 && Divides(p, a * b)
    ensures Divides(p, (a % p) * b)
  {
    var q, r := a / p, a % p;
    assert r == a - p * q;
    Multiple(p, b);
    DividesMultiple(p, p * b, q);
    DividesDifference(p, a * b, (p * b) * q);
    assert r * b == a * b - (p * b) * q by { Expand(p, b, a, q); }
  }

  lemma RemainderTwice(p: int, a: int)
    requires p >= 1
    ensures Divides(p, a % p) <==> Divides(p, a)
  {}

  lemma RemainderOfPrime(p: int, a: int, b: int)
    requires p >= 1 && a >= 1 && Divides(p, a * b)
    ensures Divides(p, (p % a) * b)
  {
    var q, r := p / a, p % a;
    assert r == p - a * q;
    Multiple(p, b);
    DividesMultiple(p, a * b, q);
    DividesDifference(p, p * b, (a * b) * q);
    assert r * b == p * b - (a * b) * q by { Expand(a, b, p, q); }
  }

  lemma {:induction false} PrimeIsFactor(p: int, s: seq<int>)
    requires Prime(p) && AllPrime(s) && Divides(p, Product(s))
    ensures p in s
  {
    if s == [] {
      DivisorBound(p, 1);
    } else {
      PrimeDividesFactor(p, s[0], Product(s[1..]));
      if Divides(p, s[0]) {
        DivisorBound(p, s[0]);
      } else {
        PrimeIsFactor(p, s[1..]);
      }
    }
  }

  lemma {:induction false} ProductOfPrimes(s: seq<int>)
    requires AllPrime(s)
    ensures Product(s) >= 1 && (s != [] ==> Product(s) >= 2)
  {
    if s != [] { ProductOfPrimes(s[1..]); }
  }

  /** Main result: the list is the only one of its kind, so `Factorize` computes the prime factorisation. */
  lemma {:induction false} OnlyFactorisation(s: seq<int>, t: seq<int>)
    requires AllPrime(s) && AllPrime(t) && Sorted(s) && Sorted(t) && Product(s) == Product(t)
    ensures s == t
  {
    ProductOfPrimes(s);
    ProductOfPrimes(t);
    if s != [] {
      FactorDivides(s, 0);
      FactorDivides(t, 0);
      PrimeIsFactor(s[0], t);
      PrimeIsFactor(t[0], s);
      assert s[0] == t[0];
      assert Product(s[1..]) == Product(t[1..]) by {
        Multiple(s[0], Product(s[1..]));
        Multiple(s[0], Product(t[1..]));
      }
      OnlyFactorisation(s[1..], t[1..]);
    }
  }
}
