/** Products and remainders the solver needs to be told about. */
module Arithmetic {

  type Pos = x: int | 0 < x witness 1

  lemma MulPos(a: Pos, b: Pos)
    ensures a * b > 0
  {
  }

  lemma MulNonNegative(a: nat, b: nat)
    ensures a * b >= 0
  {
  }

  function Product(a: Pos, b: Pos): Pos {
    MulPos(a, b);
    a * b
  }

  lemma DivFloor(n: int, d: Pos, q: int)
    ensures n / d < q <==> n < q * d
  {
    assert n == n / d * d + n % d;
    if n / d < q {
      assert n / d + 1 <= q;
      assert (n / d + 1) * d <= q * d;
    } else {
      assert q * d <= n / d * d;
    }
  }

  lemma NegProduct(x: int, y: int)
    ensures -x * y == -(x * y)
  {
  }

  lemma MulGap(d: int, c: Pos)
    ensures d == 0 || d * c >= c || d * c + c <= 0
  {
    if d >= 1 {
      assert (d - 1) * c >= 0;
    } else if d <= -1 {
      assert (-d - 1) * c >= 0;
    }
  }

  lemma ModUnique(m: int, k: int, c: Pos)
    requires m == k * c
    ensures m % c == 0 && m / c == k
  {
    var q := m / c;
    assert m == q * c + m % c;
    assert (k - q) * c == k * c - q * c;
    MulGap(k - q, c);
  }

  lemma NegMultiple(m: int, c: Pos)
    requires m % c == 0
    ensures -m % c == 0
  {
    var k := m / c;
    assert m == k * c;
    NegProduct(k, c);
    ModUnique(-m, -k, c);
  }

  lemma ModMultiple(k: int, c: Pos)
    ensures k * c % c == 0
  {
    ModUnique(k * c, k, c);
  }

  lemma ModAdd(k: nat, d: nat, n: Pos)
    ensures (k % n + d) % n == (k + d) % n
  {
    var q, x := k / n, k % n + d;
    assert k == q * n + k % n;
    assert x == x / n * n + x % n;
    DivUnique(k + d, q + x / n, x % n, n);
  }

  lemma DivUnique(x: int, q: int, m: nat, n: Pos)
    requires x == q * n + m && m < n
    ensures x / n == q && x % n == m
  {
    var d := q - x / n;
    assert x == x / n * n + x % n;
    assert d * n == q * n - x / n * n;
    MulGap(d, n);
  }

  lemma ModDistinct(a: nat, b: nat, n: Pos)
    requires a < b < a + n
    ensures a % n != b % n
  {
    var d := b / n - a / n;
    assert a == a / n * n + a % n && b == b / n * n + b % n;
    assert d * n == b / n * n - a / n * n;
    MulGap(d, n);
  }

  lemma ModNext(k: nat, n: Pos)
    ensures (k + 1) % n == if k % n + 1 == n then 0 else k % n + 1
  {
    var q := k / n;
    assert k == q * n + k % n;
    if k % n + 1 == n {
      assert (q + 1) * n == q * n + n;
      DivUnique(k + 1, q + 1, 0, n);
    } else {
      DivUnique(k + 1, q, k % n + 1, n);
    }
  }
}
