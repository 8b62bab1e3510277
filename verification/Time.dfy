/** Timestamps and time bases, as libavutil/mathematics.c treats them.

A timestamp is a number of ticks of a time base; `NOPTS` is the sentinel for "no
timestamp". Integers are unbounded here; Rescale64.dfy says when the 64-bit code agrees.
 */
module Time {
  import opened Arithmetic

  datatype Rational = Rational(num: Pos, den: Pos)

  const NOPTS: int := -0x8000_0000_0000_0000
  const INT_MAX: int := 0x7fff_ffff

  const MICROSECONDS := Rational(1, 1_000_000)

  /** The length of one tick, in seconds. */
  ghost function Tick(tb: Rational): (t: real)
    ensures t > 0.0
  {
    tb.num as real / tb.den as real
  }

  /** The instant a timestamp stands for, in seconds. */
  ghost function Instant(ts: int, tb: Rational): real {
    ts as real * Tick(tb)
  }

  function Abs(x: int): nat {
    if x < 0 then -x else x
  }

  /** av_rescale_rnd with AV_ROUND_NEAR_INF: a * b / c, halves away from zero. */
  function RescaleNear(a: int, b: Pos, c: Pos): int {
    if a < 0 then -((-a * b + c / 2) / c) else (a * b + c / 2) / c
  }

  /** av_rescale_rnd with AV_ROUND_DOWN; a negative a is rounded up in magnitude. */
  function RescaleDown(a: int, b: Pos, c: Pos): int {
    if a < 0 then -((-a * b + (c - 1)) / c) else a * b / c
  }

  /** av_rescale_q. */
  function Rescale(ts: int, from: Rational, to: Rational): int {
    RescaleNear(ts, Product(from.num, to.den), Product(to.num, from.den))
  }

  /** av_compare_ts: small operands are cross-multiplied, large ones are rescaled. */
  function CompareTs(tsA: int, tbA: Rational, tsB: int, tbB: Rational): int {
    var a := Product(tbA.num, tbB.den);
    var b := Product(tbB.num, tbA.den);
    if Abs(tsA) <= INT_MAX && a <= INT_MAX && Abs(tsB) <= INT_MAX && b <= INT_MAX then
      (if tsA * a > tsB * b then 1 else 0) - (if tsA * a < tsB * b then 1 else 0)
    else if RescaleDown(tsA, a, b) < tsB then -1
    else if RescaleDown(tsB, b, a) < tsA then 1
    else 0
  }

  lemma DownBelow(a: int, b: Pos, c: Pos, q: int)
    ensures RescaleDown(a, b, c) < q <==> a * b < q * c
  {
    if a < 0 {
      var m := -a * b + (c - 1);
      DivFloor(m, c, -q + 1);
      assert -q + 1 > m / c <==> m < (-q + 1) * c;
      assert (-q + 1) * c == -(q * c) + c;
      assert -a * b == -(a * b);
    } else {
      DivFloor(a * b, c, q);
    }
  }

  /** Rounding down before comparing loses nothing: both branches of CompareTs give the
      exact sign of the cross-multiplied difference. */
  lemma CompareIsCross(tsA: int, tbA: Rational, tsB: int, tbB: Rational)
    ensures var x, y := tsA * (tbA.num * tbB.den), tsB * (tbB.num * tbA.den);
            CompareTs(tsA, tbA, tsB, tbB) == if x < y then -1 else if x > y then 1 else 0
  {
    var a := Product(tbA.num, tbB.den);
    var b := Product(tbB.num, tbA.den);
    DownBelow(tsA, a, b, tsB);
    DownBelow(tsB, b, a, tsA);
  }

  lemma InstantScaled(ts: int, tb: Rational, other: Pos)
    ensures Instant(ts, tb) * (tb.den as real * other as real) == (ts * (tb.num * other)) as real
  {
    var n, d, t := tb.num as real, tb.den as real, Tick(tb);
    assert t * d == n;
    assert Instant(ts, tb) * (d * other as real) == ts as real * (t * d) * other as real;
    assert ts as real * n * other as real == (ts * tb.num) as real * other as real;
    assert (ts * tb.num) * other == ts * (tb.num * other);
  }

  lemma ScaledOrder(x: real, y: real, d: real)
    requires d > 0.0
    ensures x < y <==> x * d < y * d
    ensures x == y <==> x * d == y * d
  {
    if x < y {
      assert (y - x) * d > 0.0;
    } else if y < x {
      assert (x - y) * d > 0.0;
    }
  }

  /** Two instants over a common denominator: x * d and y * d are the integers m and n. */
  lemma Cross(tsA: int, tbA: Rational, tsB: int, tbB: Rational) returns (d: real, m: int, n: int)
    ensures d > 0.0
    ensures Instant(tsA, tbA) * d == m as real && Instant(tsB, tbB) * d == n as real
    ensures d == tbA.den as real * tbB.den as real
    ensures m == tsA * (tbA.num * tbB.den) && n == tsB * (tbB.num * tbA.den)
  {
    InstantScaled(tsA, tbA, tbB.den);
    InstantScaled(tsB, tbB, tbA.den);
    d, m, n := tbA.den as real * tbB.den as real, tsA * (tbA.num * tbB.den), tsB * (tbB.num * tbA.den);
    assert d == tbB.den as real * tbA.den as real;
  }

  lemma OrderScaled(x: real, y: real, d: real, m: int, n: int)
    requires d > 0.0
    requires x * d == m as real && y * d == n as real
    ensures x < y <==> m < n
    ensures x == y <==> m == n
  {
    ScaledOrder(x, y, d);
  }

  lemma CrossOrder(tsA: int, tbA: Rational, tsB: int, tbB: Rational)
    ensures var m, n := tsA * (tbA.num * tbB.den), tsB * (tbB.num * tbA.den);
            && (Instant(tsA, tbA) < Instant(tsB, tbB) <==> m < n)
            && (Instant(tsA, tbA) == Instant(tsB, tbB) <==> m == n)
  {
    var d, m, n := Cross(tsA, tbA, tsB, tbB);
    OrderScaled(Instant(tsA, tbA), Instant(tsB, tbB), d, m, n);
  }

  /** av_compare_ts orders timestamps by the instants they stand for. */
  lemma CompareIsOrder(tsA: int, tbA: Rational, tsB: int, tbB: Rational)
    ensures CompareTs(tsA, tbA, tsB, tbB) < 0 <==> Instant(tsA, tbA) < Instant(tsB, tbB)
    ensures CompareTs(tsA, tbA, tsB, tbB) <= 0 <==> Instant(tsA, tbA) <= Instant(tsB, tbB)
  {
    hide CompareTs, Instant;
    CompareIsCross(tsA, tbA, tsB, tbB);
    CrossOrder(tsA, tbA, tsB, tbB);
  }

  lemma InstantMonotone(a: int, b: int, tb: Rational)
    ensures a < b <==> Instant(a, tb) < Instant(b, tb)
    ensures a <= b <==> Instant(a, tb) <= Instant(b, tb)
  {
    ScaledOrder(a as real, b as real, Tick(tb));
  }

  /** Whether a timestamp is a whole number of ticks of another base. */
  predicate WholeTicks(ts: int, from: Rational, to: Rational) {
    ts * Product(from.num, to.den) % Product(to.num, from.den) == 0
  }

  lemma NearBound(a: int, b: Pos, c: Pos)
    ensures 0 <= 2 * (RescaleNear(a, b, c) * c - a * b) + c <= 2 * c
    ensures a * b % c == 0 ==> RescaleNear(a, b, c) * c == a * b
  {
    if a < 0 {
      NearBoundNat(-a, b, c);
      var q := (-a * b + c / 2) / c;
      NegProduct(a, b);
      NegProduct(q, c);
      if a * b % c == 0 {
        NegMultiple(a * b, c);
      }
    } else {
      NearBoundNat(a, b, c);
    }
  }

  lemma NearBoundNat(a: nat, b: Pos, c: Pos)
    ensures 0 <= 2 * ((a * b + c / 2) / c * c - a * b) + c <= 2 * c
    ensures a * b % c == 0 ==> (a * b + c / 2) / c * c == a * b
  {
    var m := a * b + c / 2;
    assert m == m / c * c + m % c;
    if a * b % c == 0 {
      var k := a * b / c;
      assert a * b == k * c;
      DivFloor(m, c, k + 1);
      DivFloor(m, c, k);
      assert (k + 1) * c == k * c + c;
      assert m / c == k;
    }
  }

  /** Both sides of a rescaling, and a tick of the new base, over a common denominator. */
  lemma RescaleScaled(ts: int, from: Rational, to: Rational) returns (d: real, m: int, n: int, c: Pos)
    ensures d > 0.0
    ensures Instant(Rescale(ts, from, to), to) * d == m as real
    ensures Instant(ts, from) * d == n as real
    ensures Tick(to) * d == c as real
    ensures 0 <= 2 * (m - n) + c <= 2 * c
    ensures m == n <==> WholeTicks(ts, from, to)
  {
    hide Instant, Tick;
    var b;
    b, c := Product(from.num, to.den), Product(to.num, from.den);
    var r := Rescale(ts, from, to);
    NearBound(ts, b, c);
    ModMultiple(r, c);
    d, m, n := Cross(r, to, ts, from);
    TickScaled(to, from.den, d);
  }

  lemma TickScaled(tb: Rational, other: Pos, d: real)
    requires d == tb.den as real * other as real
    ensures Tick(tb) * d == (tb.num * other) as real
  {
    InstantScaled(1, tb, other);
    assert Instant(1, tb) == Tick(tb);
  }

  /** Rescaling moves an instant by at most half a tick of the new base. */
  lemma RescaleClose(ts: int, from: Rational, to: Rational)
    ensures -Tick(to) <= 2.0 * (Instant(Rescale(ts, from, to), to) - Instant(ts, from)) <= Tick(to)
  {
    var d, m, n, c := RescaleScaled(ts, from, to);
    CloseScaled(Instant(Rescale(ts, from, to), to), Instant(ts, from), Tick(to), d, m, n, c);
  }

  lemma CloseScaled(x: real, y: real, t: real, d: real, m: int, n: int, c: int)
    requires d > 0.0
    requires x * d == m as real && y * d == n as real && t * d == c as real
    requires 0 <= 2 * (m - n) + c <= 2 * c
    ensures -t <= 2.0 * (x - y) <= t
  {
    assert (2.0 * (x - y)) * d == (2 * (m - n)) as real;
    ScaledOrder(t, 2.0 * (x - y), d);
    ScaledOrder(2.0 * (x - y), -t, d);
  }

  /** Rescaling keeps the instant exactly when it is a whole number of new ticks. */
  lemma RescaleExact(ts: int, from: Rational, to: Rational)
    ensures Instant(Rescale(ts, from, to), to) == Instant(ts, from) <==> WholeTicks(ts, from, to)
  {
    var d, m, n, c := RescaleScaled(ts, from, to);
    OrderScaled(Instant(Rescale(ts, from, to), to), Instant(ts, from), d, m, n);
  }

  lemma RescaleSame(ts: int, tb: Rational)
    ensures Rescale(ts, tb, tb) == ts
  {
    var c := Product(tb.num, tb.den);
    NearBound(ts, c, c);
    ModMultiple(ts, c);
    var r := Rescale(ts, tb, tb);
    assert (r - ts) * c == 0;
  }
}
