/** When a timestamp rescaled to a coarser base stays within one tick: what a fake heartbeat needs
to release the tail it is sent for (fftools/sync_queue.c:314-332). */
module HeartbeatRounding {
  import opened Arithmetic
  import opened GcdModel
  import opened Time

  /** A tick of `to` is p/q ticks of `from`. */
  function TickP(from: Rational, to: Rational): Pos {
    Product(to.num, from.den)
  }

  function TickQ(from: Rational, to: Rational): Pos {
    Product(from.num, to.den)
  }

  /** With p/q in lowest terms, half of p is at most q. One shared base, or a base whose tick is at
      most two ticks of the other, is a special case. */
  predicate FineEnough(to: Rational, from: Rational) {
    var p, q := TickP(from, to), TickQ(from, to);
    p / Gcd(p, q) / 2 <= q / Gcd(p, q)
  }

  /** The rescaled timestamp is at or after the tick before. */
  ghost predicate WithinTick(ts: int, from: Rational, to: Rational) {
    Instant(ts - 1, from) <= Instant(Rescale(ts, from, to), to)
  }

  lemma WithinTickScaled(ts: int, from: Rational, to: Rational)
    ensures var p, q := TickP(from, to), TickQ(from, to);
            WithinTick(ts, from, to) <==> ts * q - RescaleNear(ts, q, p) * p <= q
  {
    hide Instant, RescaleNear;
    CrossOrder(ts - 1, from, Rescale(ts, from, to), to);
  }

  /** Rounding down loses at most half of p, and always a multiple of the common divisor. */
  lemma LossBound(ts: int, p: Pos, q: Pos) returns (k: int)
    ensures ts * q - RescaleNear(ts, q, p) * p == k * Gcd(p, q) && 2 * k <= p / Gcd(p, q)
  {
    hide RescaleNear, Divides, Gcd;
    var g, r := Gcd(p, q), RescaleNear(ts, q, p);
    NearBound(ts, q, p);
    GcdDivides(p, q);
    DividesProduct(g, q, ts);
    DividesProduct(g, p, r);
    DividesSum(g, ts * q, r * p);
    k := Quotient(g, ts * q - r * p);
    var p' := Quotient(g, p);
    SmallerFactor(2 * k, p', g, 2 * (k * g), p);
  }

  lemma SmallerFactor(x: int, y: int, g: Pos, m: int, n: int)
    requires m == x * g && n == y * g && m <= n
    ensures x <= y
  {
    LargerProduct(x, y, g);
  }

  lemma FineNeverLoses(ts: int, from: Rational, to: Rational)
    requires FineEnough(to, from)
    ensures WithinTick(ts, from, to)
  {
    var p, q := TickP(from, to), TickQ(from, to);
    var g := Gcd(p, q);
    WithinTickScaled(ts, from, to);
    hide RescaleNear, Gcd, Divides, WithinTick;
    var k := LossBound(ts, p, q);
    GcdDivides(p, q);
    var q' := Quotient(g, q);
    LargerProduct(k, q', g);
  }

  lemma LargerProduct(x: int, y: int, g: Pos)
    ensures x <= y <==> x * g <= y * g
  {
    MulGap(x - y, g);
    assert (x - y) * g == x * g - y * g;
  }

  /** Beyond that, some timestamp is rounded down by more than a tick. */
  lemma CoarseLoses(from: Rational, to: Rational) returns (ts: int)
    requires !FineEnough(to, from)
    ensures -(TickP(from, to) as int) <= ts < 0 && !WithinTick(ts, from, to)
  {
    var p, q := TickP(from, to), TickQ(from, to);
    var g := Gcd(p, q);
    hide RescaleNear, Gcd, Divides, WithinTick;
    var x, y := Bezout(p, q);
    GcdDivides(p, q);
    var p', q' := p / g, q / g;
    var p1 := Quotient(g, p);
    var q1 := Quotient(g, q);
    var k := p' / 2;
    var r;
    ts, r := NegativeMultiple(x, y, k, p, q, g);
    HalfFits(k, p', g, p);
    RoundsTo(ts, r, k * g, p, q);
    LargerProduct(k, q', g);
    WithinTickScaled(ts, from, to);
  }

  lemma HalfFits(k: nat, p': int, g: Pos, p: Pos)
    requires k == p' / 2 && p == p' * g
    ensures 0 <= k * g && 2 * (k * g) <= p
  {
    MulNonNegative(k, g);
    MulNonNegative(p' - 2 * k, g);
    assert (p' - 2 * k) * g == p' * g - 2 * (k * g);
  }

  /** Some ts with ts * q exactly k * g above a multiple of p, and all others a multiple of p away. */
  lemma SomeMultiple(x: int, y: int, k: nat, p: Pos, q: Pos, g: Pos, n: int) returns (ts: int, r: int)
    requires x * p + y * q == g
    ensures ts == y * k - n * p && ts * q == r * p + k * g
  {
    var t := y * k;
    ts, r := t - n * p, -(x * k) - n * q;
    assert t * q == (y * q) * k;
    assert (x * k) * p == (x * p) * k;
    assert (x * p + y * q) * k == (x * p) * k + (y * q) * k;
    assert (t - n * p) * q == t * q - n * p * q;
    assert (-(x * k) - n * q) * p == -((x * k) * p) - n * q * p;
    assert n * p * q == n * q * p;
  }

  /** One of them is within p below zero, and one within p above p. */
  lemma NegativeMultiple(x: int, y: int, k: nat, p: Pos, q: Pos, g: Pos) returns (ts: int, r: int)
    requires x * p + y * q == g
    ensures -(p as int) <= ts < 0 && ts * q == r * p + k * g
  {
    var t := y * k;
    assert t == t / p * p + t % p;
    assert (t / p + 1) * p == t / p * p + p;
    ts, r := SomeMultiple(x, y, k, p, q, g, t / p + 1);
  }

  lemma PositiveMultiple(x: int, y: int, k: nat, p: Pos, q: Pos, g: Pos) returns (ts: int, r: int)
    requires x * p + y * q == g
    ensures ts > 0 && ts * q == r * p + k * g
  {
    var t := y * k;
    assert t == t / p * p + t % p;
    assert (t / p - 1) * p == t / p * p - p;
    ts, r := SomeMultiple(x, y, k, p, q, g, t / p - 1);
  }

  /** A negative timestamp at most half a new tick above r new ticks is rounded to r. */
  lemma RoundsTo(ts: int, r: int, rest: nat, p: Pos, q: Pos)
    requires ts < 0 && ts * q == r * p + rest && 2 * rest <= p
    ensures RescaleNear(ts, q, p) == r
  {
    NegProduct(ts, q);
    NegProduct(r, p);
    var m := -ts * q + p / 2;
    assert m == -r * p + (p / 2 - rest);
    DivUnique(m, -r, p / 2 - rest, p);
  }

  /** Rescaling keeps within a tick for all timestamps exactly if the base is fine enough. */
  lemma FineEnoughIff(from: Rational, to: Rational)
    ensures FineEnough(to, from) <==> forall ts :: WithinTick(ts, from, to)
  {
    hide WithinTick, FineEnough;
    if FineEnough(to, from) {
      forall ts ensures WithinTick(ts, from, to) {
        FineNeverLoses(ts, from, to);
      }
    } else {
      var ts := CoarseLoses(from, to);
    }
  }

  // ---- timestamps after zero ----

  /** Ties round up there: half of p less one is at most q. */
  predicate FineForward(to: Rational, from: Rational) {
    var p, q := TickP(from, to), TickQ(from, to);
    (p / Gcd(p, q) - 1) / 2 <= q / Gcd(p, q)
  }

  lemma ForwardLossBound(ts: int, p: Pos, q: Pos) returns (k: int)
    requires ts > 0
    ensures ts * q - RescaleNear(ts, q, p) * p == k * Gcd(p, q) && 2 * k <= p / Gcd(p, q) - 1
  {
    var g, r := Gcd(p, q), RescaleNear(ts, q, p);
    MulPos(ts, q);
    assert ts * q + p / 2 == (ts * q + p / 2) / p * p + (ts * q + p / 2) % p;
    assert 2 * (ts * q - r * p) <= p - 1;
    hide RescaleNear, Divides, Gcd;
    k := LossBound(ts, p, q);
    GcdDivides(p, q);
    var p' := Quotient(g, p);
    LessFactor(2 * k, p', g, 2 * (k * g), p);
  }

  lemma LessFactor(x: int, y: int, g: Pos, m: int, n: int)
    requires m == x * g && n == y * g && m < n
    ensures x < y
  {
    LargerProduct(y, x, g);
  }

  lemma ForwardNeverLoses(ts: int, from: Rational, to: Rational)
    requires FineForward(to, from) && ts > 0
    ensures WithinTick(ts, from, to)
  {
    var p, q := TickP(from, to), TickQ(from, to);
    var g := Gcd(p, q);
    WithinTickScaled(ts, from, to);
    hide RescaleNear, Gcd, Divides, WithinTick;
    var k := ForwardLossBound(ts, p, q);
    GcdDivides(p, q);
    var q' := Quotient(g, q);
    LargerProduct(k, q', g);
  }

  lemma ForwardLoses(from: Rational, to: Rational) returns (ts: int)
    requires !FineForward(to, from)
    ensures ts > 0 && !WithinTick(ts, from, to)
  {
    var p, q := TickP(from, to), TickQ(from, to);
    var g := Gcd(p, q);
    hide RescaleNear, Gcd, Divides, WithinTick;
    var x, y := Bezout(p, q);
    GcdDivides(p, q);
    var p' := Quotient(g, p);
    var q' := Quotient(g, q);
    QuotientPos(p, g);
    var k := (p' - 1) / 2;
    var r;
    ts, r := PositiveMultiple(x, y, k, p, q, g);
    LessThanHalf(k, p', g, p);
    RoundsDownTo(ts, r, k * g, p, q);
    LargerProduct(k, q', g);
    WithinTickScaled(ts, from, to);
  }

  lemma LessThanHalf(k: nat, p': int, g: Pos, p: Pos)
    requires k == (p' - 1) / 2 && p == p' * g && p' > 0
    ensures 0 <= k * g && 2 * (k * g) < p
  {
    MulNonNegative(k, g);
    MulPos(p' - 2 * k, g);
    assert (p' - 2 * k) * g == p' * g - 2 * (k * g);
  }

  lemma RoundsDownTo(ts: int, r: int, rest: nat, p: Pos, q: Pos)
    requires ts > 0 && ts * q == r * p + rest && 2 * rest < p
    ensures RescaleNear(ts, q, p) == r
  {
    DivUnique(ts * q + p / 2, r, rest + p / 2, p);
  }

  /** For timestamps after zero the exact ratio is this one. */
  lemma FineForwardIff(from: Rational, to: Rational)
    ensures FineForward(to, from) <==> forall ts :: ts > 0 ==> WithinTick(ts, from, to)
  {
    hide WithinTick, FineForward;
    if FineForward(to, from) {
      forall ts | ts > 0 ensures WithinTick(ts, from, to) {
        ForwardNeverLoses(ts, from, to);
      }
    } else {
      var ts := ForwardLoses(from, to);
    }
  }

  /** Fine enough for timestamps of this sign. */
  predicate FineFor(ts: int, to: Rational, from: Rational) {
    if ts > 0 then FineForward(to, from) else FineEnough(to, from)
  }

  lemma FineForWithinTick(ts: int, from: Rational, to: Rational)
    requires FineFor(ts, to, from)
    ensures WithinTick(ts, from, to)
  {
    hide FineForward, FineEnough, WithinTick;
    if ts > 0 {
      ForwardNeverLoses(ts, from, to);
    } else {
      FineNeverLoses(ts, from, to);
    }
  }

  /** The special case: at most two ticks. */
  lemma TwoTicksFine(to: Rational, from: Rational)
    requires TickP(from, to) <= 2 * TickQ(from, to)
    ensures FineEnough(to, from)
  {
    var p, q := TickP(from, to), TickQ(from, to);
    var g := Gcd(p, q);
    hide Gcd, Divides;
    GcdDivides(p, q);
    var p' := Quotient(g, p);
    var q' := Quotient(g, q);
    SmallerFactor(p', 2 * q', g, p, 2 * (q' * g));
  }
}
