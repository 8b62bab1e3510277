/** Greatest common divisors: av_gcd of libavutil/mathematics.c, a binary algorithm, and the
Euclidean definition it agrees with. */
module GcdModel {
  import opened Arithmetic

  predicate Divides(a: Pos, b: int) {
    b % a == 0
  }

  lemma MultipleDivides(a: Pos, k: int)
    ensures Divides(a, k * a)
  {
    ModUnique(k * a, k, a);
  }

  lemma Quotient(a: Pos, b: int) returns (q: int)
    requires Divides(a, b)
    ensures q == b / a && b == q * a
  {
    q := b / a;
  }

  lemma DividesTransitive(a: Pos, b: Pos, c: int)
    requires Divides(a, b) && Divides(b, c)
    ensures Divides(a, c)
  {
    var m := Quotient(a, b);
    var n := Quotient(b, c);
    hide Divides;
    assert n * (m * a) == (n * m) * a;
    MultipleDivides(a, n * m);
  }

  lemma DividesSum(a: Pos, b: int, c: int)
    requires Divides(a, b) && Divides(a, c)
    ensures Divides(a, b + c) && Divides(a, b - c)
  {
    var m := Quotient(a, b);
    var n := Quotient(a, c);
    hide Divides;
    assert (m + n) * a == m * a + n * a && (m - n) * a == m * a - n * a;
    MultipleDivides(a, m + n);
    MultipleDivides(a, m - n);
  }

  lemma DividesProduct(a: Pos, b: int, k: int)
    requires Divides(a, b)
    ensures Divides(a, k * b)
  {
    var m := Quotient(a, b);
    hide Divides;
    assert k * (m * a) == (k * m) * a;
    MultipleDivides(a, k * m);
  }

  lemma DividesBoth(a: Pos, b: Pos)
    requires Divides(a, b) && Divides(b, a)
    ensures a == b
  {
    DividesAtMost(a, b);
    DividesAtMost(b, a);
  }

  lemma DividesAtMost(a: Pos, b: Pos)
    requires Divides(a, b)
    ensures a <= b
  {
    var q := Quotient(a, b);
    hide Divides;
    MulGap(q, a);
  }

  lemma QuotientPos(a: Pos, g: Pos)
    requires Divides(g, a)
    ensures a / g > 0
  {
    var q := Quotient(g, a);
  }

  function Gcd(a: Pos, b: nat): (g: Pos)
    decreases b
  {
    if b == 0 then a else Gcd(b, a % b)
  }

  lemma RemainderStep(a: nat, b: Pos, g: Pos)
    requires Divides(g, b)
    ensures Divides(g, a) <==> Divides(g, a % b)
  {
    var m := a / b * b;
    assert a == m + a % b;
    DividesProduct(g, b, a / b);
    if Divides(g, a) {
      DividesSum(g, a, m);
    }
    if Divides(g, a % b) {
      DividesSum(g, m, a % b);
    }
  }

  lemma {:induction false} GcdDivides(a: Pos, b: nat)
    ensures Divides(Gcd(a, b), a) && Divides(Gcd(a, b), b)
    decreases b
  {
    if b == 0 {
      MultipleDivides(a, 1);
      MultipleDivides(a, 0);
    } else {
      GcdDivides(b, a % b);
      RemainderStep(a, b, Gcd(b, a % b));
    }
  }

  lemma {:induction false} GcdGreatest(a: Pos, b: nat, d: Pos)
    requires Divides(d, a) && Divides(d, b)
    ensures Divides(d, Gcd(a, b))
    decreases b
  {
    if b != 0 {
      RemainderStep(a, b, d);
      GcdGreatest(b, a % b, d);
    }
  }

  /** The gcd is a combination of both numbers. */
  lemma {:induction false} Bezout(a: Pos, b: nat) returns (x: int, y: int)
    ensures x * a + y * b == Gcd(a, b)
    decreases b
  {
    if b == 0 {
      x, y := 1, 0;
    } else {
      var u, v := Bezout(b, a % b);
      x, y := v, u - v * (a / b);
      Recombine(u, v, a, b, a / b, a % b);
    }
  }

  lemma Recombine(u: int, v: int, a: int, b: int, q: int, r: int)
    requires a == q * b + r
    ensures v * a + (u - v * q) * b == u * b + v * r
  {
    assert v * (q * b + r) == v * q * b + v * r;
    assert (u - v * q) * b == u * b - v * q * b;
  }

  /** Two pairs of which each gcd divides the other pair have the same gcd. */
  lemma GcdEqual(a: Pos, b: nat, c: Pos, d: nat)
    requires Divides(Gcd(a, b), c) && Divides(Gcd(a, b), d)
    requires Divides(Gcd(c, d), a) && Divides(Gcd(c, d), b)
    ensures Gcd(a, b) == Gcd(c, d)
  {
    GcdGreatest(c, d, Gcd(a, b));
    GcdGreatest(a, b, Gcd(c, d));
    DividesBoth(Gcd(a, b), Gcd(c, d));
  }

  lemma ScaledRemainder(a: nat, b: Pos, k: Pos)
    ensures k * b > 0 && (k * a) % (k * b) == k * (a % b)
  {
    MulPos(k, b);
    var q, r := a / b, a % b;
    assert a == q * b + r;
    assert k * (q * b + r) == q * (k * b) + k * r;
    assert k * r < k * b by {
      assert k * (b - r) > 0 by { MulPos(k, b - r); }
    }
    assert k * r >= 0;
    DivUnique(k * a, q, k * r, k * b);
  }

  lemma {:induction false} GcdScale(a: Pos, b: nat, k: Pos)
    ensures k * a > 0 && k * b >= 0 && Gcd(k * a, k * b) == k * Gcd(a, b)
    decreases b
  {
    MulPos(k, a);
    if b != 0 {
      ScaledRemainder(a, b, k);
      GcdScale(b, a % b, k);
    }
  }

  /** a / gcd * b is the least common multiple: it divides every common multiple. */
  lemma LeastCommonMultiple(a: Pos, b: Pos, m: Pos)
    requires Divides(a, m) && Divides(b, m)
    ensures var l := a / Gcd(a, b) * b; l > 0 && Divides(l, m)
  {
    var g := Gcd(a, b);
    GcdDivides(a, b);
    QuotientPos(a, g);
    var q := Quotient(g, a);
    MulPos(q, b);
    MulPos(a, b);
    MulPos(m, g);
    ScaledCommon(a, b, m);
    hide Divides, Gcd;
    var z := Quotient(a * b, m * g);
    CancelFactor(m, z * (q * b), g, z, q, b);
    MultipleDivides(q * b, z);
  }

  lemma ScaledCommon(a: Pos, b: Pos, m: Pos)
    requires Divides(a, m) && Divides(b, m)
    ensures a * b > 0 && Divides(a * b, m * Gcd(a, b))
  {
    hide Divides, Gcd;
    MulPos(a, b);
    MulPos(m, a);
    MulPos(m, b);
    var x := Quotient(a, m);
    var y := Quotient(b, m);
    assert m * a == y * (a * b) by { assert (y * b) * a == y * (a * b); }
    assert m * b == x * (a * b) by { assert (x * a) * b == x * (a * b); }
    MultipleDivides(a * b, y);
    MultipleDivides(a * b, x);
    GcdScale(a, b, m);
    GcdGreatest(m * a, m * b, a * b);
  }

  lemma CancelFactor(m: int, n: int, g: Pos, z: int, q: int, b: int)
    requires m * g == z * (q * g * b) && n == z * (q * b)
    ensures m == n
  {
    assert z * (q * g * b) == (z * (q * b)) * g;
    assert (m - n) * g == m * g - n * g;
    MulGap(m - n, g);
  }

  /** And it is a common multiple. */
  lemma CommonMultiple(a: Pos, b: Pos)
    ensures var l := a / Gcd(a, b) * b; Divides(a, l) && Divides(b, l)
  {
    var g := Gcd(a, b);
    GcdDivides(a, b);
    var m := Quotient(g, a);
    var n := Quotient(g, b);
    hide Divides, Gcd;
    assert m * (n * g) == n * (m * g);
    MultipleDivides(a, n);
    MultipleDivides(b, m);
  }

  // ---- the binary algorithm ----

  predicate Odd(x: int) {
    x % 2 == 1
  }

  lemma HalfPos(x: Pos)
    requires x % 2 == 0
    ensures x / 2 > 0
  {
  }

  /** The number of trailing zero bits. */
  function Ctz(x: Pos): nat {
    if x % 2 == 0 then (HalfPos(x); 1 + Ctz(x / 2)) else 0
  }

  /** x shifted right by its trailing zeros. */
  function OddPart(x: Pos): (r: Pos)
    ensures r % 2 == 1 && r <= x
  {
    if x % 2 == 0 then (HalfPos(x); OddPart(x / 2)) else x
  }

  function Shl(x: Pos, k: nat): Pos {
    if k == 0 then x else 2 * Shl(x, k - 1)
  }

  lemma GcdSwap(a: Pos, b: Pos)
    ensures Gcd(a, b) == Gcd(b, a)
  {
    GcdDivides(a, b);
    GcdDivides(b, a);
    GcdEqual(a, b, b, a);
  }

  lemma OddDivisor(g: Pos, u: Pos, x: Pos)
    requires u % 2 == 1 && Divides(g, u) && Divides(g, 2 * x)
    ensures Divides(g, x)
  {
    var k := Quotient(g, u);
    var m := Quotient(g, 2 * x);
    hide Divides;
    OddFactors(k, g, u);
    EvenProduct(m, g, x);
    assert m == 2 * (m / 2);
    assert (2 * (m / 2)) * g == 2 * (m / 2 * g);
    MultipleDivides(g, m / 2);
  }

  lemma OddFactors(k: int, g: int, u: int)
    requires u == k * g && u % 2 == 1
    ensures g % 2 == 1
  {
    var h := g / 2;
    assert k * (2 * h + g % 2) == 2 * (k * h) + k * (g % 2);
  }

  lemma EvenProduct(m: int, g: int, x: int)
    requires 2 * x == m * g && g % 2 == 1
    ensures m % 2 == 0
  {
    var h := g / 2;
    assert g == 2 * h + 1;
    assert m * (2 * h + 1) == 2 * (m * h) + m;
    assert m == 2 * (x - m * h);
  }

  /** An odd number's gcd with x does not see the factors two of x. */
  lemma {:induction false} GcdOddPart(u: Pos, x: Pos)
    requires u % 2 == 1
    ensures Gcd(u, x) == Gcd(u, OddPart(x))
    decreases x
  {
    if x % 2 == 0 {
      HalfPos(x);
      var y := x / 2;
      GcdDivides(u, x);
      OddDivisor(Gcd(u, x), u, y);
      GcdDivides(u, y);
      DividesProduct(Gcd(u, y), y, 2);
      GcdEqual(u, x, u, y);
      GcdOddPart(u, y);
    }
  }

  lemma GcdDifference(u: Pos, v: Pos)
    requires u < v
    ensures Gcd(u, v) == Gcd(u, v - u)
  {
    GcdDivides(u, v);
    DividesSum(Gcd(u, v), v, u);
    GcdDivides(u, v - u);
    DividesSum(Gcd(u, v - u), v - u, u);
    GcdEqual(u, v, u, v - u);
  }

  lemma GcdSelf(u: Pos)
    ensures Gcd(u, u) == u
  {
    MultipleDivides(u, 1);
    GcdDivides(u, u);
    GcdGreatest(u, u, u);
    DividesBoth(Gcd(u, u), u);
  }

  /** Factors two common to both are the smaller number of trailing zeros. */
  lemma {:induction false} GcdTwos(a: Pos, b: Pos)
    ensures var k := if Ctz(a) < Ctz(b) then Ctz(a) else Ctz(b);
            Gcd(a, b) == Shl(Gcd(OddPart(a), OddPart(b)), k)
    decreases a + b
  {
    if a % 2 == 0 && b % 2 == 0 {
      HalfPos(a);
      HalfPos(b);
      GcdTwos(a / 2, b / 2);
      GcdScale(a / 2, b / 2, 2);
    } else if a % 2 == 1 {
      GcdOddPart(a, b);
    } else {
      GcdSwap(a, b);
      GcdOddPart(b, a);
      GcdSwap(b, OddPart(a));
    }
  }

  function Abs(x: int): Pos
    requires x != 0
  {
    if x < 0 then -x else x
  }

  /** av_gcd: the greatest common divisor, or with a zero argument the other one unchanged, sign
      and all. Both shifts of the arguments drop zero bits only, so that taking the absolute
      value first is the same. */
  method AvGcd(a: int, b: int) returns (g: int)
    ensures a == 0 ==> g == b
    ensures a != 0 && b == 0 ==> g == a
    ensures a != 0 && b != 0 ==> g == Gcd(Abs(a), Abs(b))
  {
    if a == 0 {
      return b;
    }
    if b == 0 {
      return a;
    }
    var za, zb := Ctz(Abs(a)), Ctz(Abs(b));
    var k := if za < zb then za else zb;
    var u, v := OddPart(Abs(a)), OddPart(Abs(b));
    GcdTwos(Abs(a), Abs(b));
    while u != v
      invariant Odd(u) && Odd(v)
      invariant Gcd(u, v) == Gcd(OddPart(Abs(a)), OddPart(Abs(b)))
      decreases u + v
    {
      if u > v {
        GcdSwap(u, v);
        u, v := v, u;
      }
      GcdDifference(u, v);
      GcdOddPart(u, v - u);
      v := v - u;
      v := OddPart(v);
    }
    GcdSelf(u);
    g := Shl(u, k);
  }
}
