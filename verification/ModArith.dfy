/**
 Arithmetic modulo a prime: divisibility, the extended Euclidean algorithm and
 the modular inverse.
 */
module ModArith {
  import opened Base

  function Times(d: int, k: int): int {
    d * k
  }

  ghost predicate Divides(d: int, a: int) {
    exists k: int :: Times(d, k) == a
  }

  ghost predicate IsPrime(p: int) {
    p >= 2 && forall d: int :: 2 <= d < p ==> !Divides(d, p)
  }

  lemma DividesTimes(d: int, k: int)
    ensures Divides(d, d * k)
  {
    assert Times(d, k) == d * k;
  }

  lemma DividesSum(d: int, a: int, b: int)
    requires Divides(d, a) && Divides(d, b)
    ensures Divides(d, a + b) && Divides(d, a - b)
  {
    var i :| Times(d, i) == a;
    var j :| Times(d, j) == b;
    assert Times(d, i + j) == a + b;
    assert Times(d, i - j) == a - b;
  }

  lemma DividesProduct(d: int, a: int, c: int)
    requires Divides(d, a)
    ensures Divides(d, a * c) && Divides(d, c * a)
  {
    var i :| Times(d, i) == a;
    assert d * (i * c) == (d * i) * c;
    assert Times(d, i * c) == a * c;
  }

  lemma MultipleAtLeast(d: int, k: int)
    requires d > 0
    ensures k >= 1 ==> d * k >= d
    ensures k <= -1 ==> d * k <= -d
  {
  }

  lemma MultipleInRange(d: int, k: int)
    requires d > 0 && 0 <= d * k < d
    ensures k == 0
  {
    MultipleAtLeast(d, k);
  }

  /** Divisibility is a zero remainder. */
  lemma DividesIffMod(d: int, a: int)
    requires d > 0
    ensures Divides(d, a) <==> a % d == 0
    ensures Divides(d, a - a % d) && Divides(d, a % d - a)
  {
    var q := a / d;
    assert a == d * q + a % d;
    assert Times(d, q) == a - a % d;
    assert d * -q == -(d * q);
    assert Times(d, -q) == a % d - a;
    if Divides(d, a) {
      var k :| Times(d, k) == a;
      assert d * (k - q) == d * k - d * q;
      MultipleInRange(d, k - q);
    }
  }

  lemma NoSmallMultiple(d: int, a: int)
    requires -d < a < d && Divides(d, a)
    ensures a == 0
  {
    var k :| Times(d, k) == a;
    if a < 0 {
      assert d * -k == -(d * k);
      MultipleInRange(d, -k);
    } else {
      MultipleInRange(d, k);
    }
  }

  // ---------------------------------------------------------------------
  // Extended Euclid
  // ---------------------------------------------------------------------

  datatype Bezout = Bezout(g: int, x: int, y: int)

  function ExtendedGcd(a: nat, b: nat): Bezout
    decreases b
  {
    if b == 0 then Bezout(a, 1, 0)
    else
      var r := ExtendedGcd(b, a % b);
      Bezout(r.g, r.y, r.x - a / b * r.y)
  }

  lemma BezoutStep(a: int, b: int, q: int, m: int, x: int, y: int)
    requires a == b * q + m
    ensures a * y + b * (x - q * y) == b * x + m * y
  {
    assert (b * q + m) * y == b * (q * y) + m * y;
    assert b * (x - q * y) == b * x - b * (q * y);
  }

  lemma {:induction false} ExtendedGcdCorrect(a: nat, b: nat)
    requires a > 0 || b > 0
    ensures var r := ExtendedGcd(a, b);
            a * r.x + b * r.y == r.g && r.g > 0 && Divides(r.g, a) && Divides(r.g, b)
    decreases b
  {
    if b == 0 {
      DividesTimes(a, 1);
      DividesTimes(a, 0);
    } else {
      var q, m := a / b, a % b;
      assert a == b * q + m;
      ExtendedGcdCorrect(b, m);
      var r := ExtendedGcd(b, m);
      BezoutStep(a, b, q, m, r.x, r.y);
      DividesProduct(r.g, b, q);
      DividesSum(r.g, b * q, m);
    }
  }

  /** `pow(a, -1, m)`: nothing when the program raises ValueError. */
  function ModInverse(a: int, m: int): Option<int>
    requires m > 0
  {
    var r := ExtendedGcd(a % m, m);
    if r.g == 1 then Some(r.x % m) else None
  }

  lemma InverseIdentity(a: int, a': int, i: int, x: int, y: int, m: int)
    requires a' * x + m * y == 1
    ensures (i - x) * a + ((a - a') * x + m * -y) == a * i - 1
  {
    assert (i - x) * a == a * i - a * x;
    assert (a - a') * x == a * x - a' * x;
    assert m * -y == -(m * y);
  }

  /** The inverse is one, is reduced, and is found whenever there is one. */
  lemma ModInverseCorrect(a: int, m: int)
    requires m > 1
    ensures var r := ModInverse(a, m);
            if r.Some? then 0 <= r.value < m && Divides(m, a * r.value - 1)
            else forall x: int :: !Divides(m, Times(a, x) - 1)
  {
    var a' := a % m;
    var r := ExtendedGcd(a', m);
    ExtendedGcdCorrect(a', m);
    DividesIffMod(m, a);
    if r.g == 1 {
      var i := r.x % m;
      DividesIffMod(m, r.x);
      DividesProduct(m, i - r.x, a);
      DividesProduct(m, a - a', r.x);
      DividesTimes(m, -r.y);
      DividesSum(m, (a - a') * r.x, m * -r.y);
      DividesSum(m, (i - r.x) * a, (a - a') * r.x + m * -r.y);
      InverseIdentity(a, a', i, r.x, r.y, m);
    } else {
      forall x: int
        ensures !Divides(m, Times(a, x) - 1)
      {
        if Divides(m, Times(a, x) - 1) {
          CommonFactor(a, m, a', r.g, x);
        }
      }
    }
  }

  lemma DividesThrough(d: int, m: int, a: int)
    requires Divides(d, m) && Divides(m, a)
    ensures Divides(d, a)
  {
    var k :| Times(m, k) == a;
    DividesProduct(d, m, k);
  }

  /** A factor shared with the modulus rules out an inverse. */
  lemma CommonFactor(a: int, m: int, a': int, g: int, x: int)
    requires m > 0 && g > 0 && Divides(m, a - a') && Divides(g, a') && Divides(g, m)
    requires Divides(m, a * x - 1)
    ensures g == 1
  {
    DividesThrough(g, m, a - a');
    DividesSum(g, a - a', a');
    DividesProduct(g, a, x);
    DividesThrough(g, m, a * x - 1);
    DividesSum(g, a * x, a * x - 1);
    assert Divides(g, 1);
    if g > 1 {
      NoSmallMultiple(g, 1);
    }
  }

  /** Modulo a prime everything but zero has an inverse. */
  lemma PrimeInverse(p: int, a: int)
    requires IsPrime(p) && !Divides(p, a)
    ensures ModInverse(a, p).Some?
  {
    var a' := a % p;
    var r := ExtendedGcd(a', p);
    ExtendedGcdCorrect(a', p);
    DividesIffMod(p, a);
    assert 0 < a' < p;
    DivisorBound(r.g, a');
    assert r.g < 2 || !Divides(r.g, p);
  }

  lemma DivisorBound(g: int, a: int)
    requires g > 0 && a > 0 && Divides(g, a)
    ensures g <= a
  {
    if a < g {
      NoSmallMultiple(g, a);
    }
  }

  /** A prime dividing a product divides a factor. */
  lemma PrimeProduct(p: int, a: int, b: int)
    requires IsPrime(p) && Divides(p, a * b)
    ensures Divides(p, a) || Divides(p, b)
  {
    if !Divides(p, a) {
      PrimeInverse(p, a);
      ModInverseCorrect(a, p);
      var i := ModInverse(a, p).value;
      DividesProduct(p, a * b, i);
      DividesProduct(p, a * i - 1, b);
      DividesSum(p, a * b * i, (a * i - 1) * b);
      CancelIdentity(a, b, i);
    }
  }

  lemma CancelIdentity(a: int, b: int, i: int)
    ensures a * b * i - (a * i - 1) * b == b
  {
  }
}
