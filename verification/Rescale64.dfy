/** The 64-bit arithmetic under the timestamps: av_rescale_rnd and av_compare_ts of
libavutil/mathematics.c, with their unsigned wrap-around written out.

A 64-bit word is a natural number below TWO64; every operation that can wrap is taken modulo it.
 */
module Rescale64 {
  import opened Arithmetic
  import opened Time

  const TWO32: nat := 0x1_0000_0000
  const TWO63: nat := 0x8000_0000_0000_0000
  const TWO64: nat := 0x1_0000_0000_0000_0000
  const INT64_MAX: int := 0x7fff_ffff_ffff_ffff
  const INT64_MIN: int := -0x8000_0000_0000_0000

  predicate Int64(x: int) {
    INT64_MIN <= x <= INT64_MAX
  }

  /** AVRounding: towards zero, away from zero, down, up, to the nearest with halves away. */
  datatype Rounding = Zero | Inf | Down | Up | NearInf

  /** rnd ^ ((rnd >> 1) & 1): for a negative factor, down and up change places. */
  function Flip(rnd: Rounding): Rounding {
    match rnd
    case Down => Up
    case Up => Down
    case _ => rnd
  }

  function Bias(c: Pos, rnd: Rounding): (r: nat)
    ensures r < c
  {
    match rnd
    case NearInf => c / 2
    case Inf => c - 1
    case Up => c - 1
    case _ => 0
  }

  /** a * b / c over the integers, rounded as asked. */
  function Rounded(a: int, b: nat, c: Pos, rnd: Rounding): int {
    if a < 0 then -((-a * b + Bias(c, Flip(rnd))) / c) else (a * b + Bias(c, rnd)) / c
  }

  /** What each rounding means. */
  lemma RoundedMeans(a: int, b: nat, c: Pos, rnd: Rounding)
    ensures var x, n := Rounded(a, b, c, rnd), a * b;
            match rnd
            case Down => x * c <= n < x * c + c
            case Up => x * c - c < n <= x * c
            case Zero => if a < 0 then x * c - c < n <= x * c else x * c <= n < x * c + c
            case Inf => if a < 0 then x * c <= n < x * c + c else x * c - c < n <= x * c
            case NearInf => if a < 0 then 2 * (x * c) - c < 2 * n <= 2 * (x * c) + c
                            else 2 * (x * c) - c <= 2 * n < 2 * (x * c) + c
  {
    var n, bias := Abs(a) * b, Bias(c, if a < 0 then Flip(rnd) else rnd);
    assert a * b == if a < 0 then -n else n by { NegProduct(a, b); }
    var p := Floor(n + bias, c);
    assert Rounded(a, b, c, rnd) * c == if a < 0 then -p else p by { NegProduct((n + bias) / c, c); }
  }

  lemma Floor(m: nat, c: Pos) returns (p: int)
    ensures p == m / c * c && p <= m < p + c
  {
    p := m / c * c;
    assert m == p + m % c;
  }

  /** The roundings the timestamp functions use are those of module Time. */
  lemma RoundedIsTime(a: int, b: Pos, c: Pos)
    ensures Rounded(a, b, c, NearInf) == RescaleNear(a, b, c)
    ensures Rounded(a, b, c, Down) == RescaleDown(a, b, c)
  {
  }

  /** Results out of range become INT64_MIN. */
  function Fit(x: int): int {
    if -INT64_MAX <= x <= INT64_MAX then x else INT64_MIN
  }

  // ---- the 128-bit path ----

  /** The value of an unsigned 64-bit expression. */
  function Wrap(x: nat): nat {
    x % TWO64
  }

  /** The bit of weight p. */
  function BitOf(word: nat, p: Pos): nat {
    word / p % 2
  }

  function Pow2(k: nat): Pos {
    if k == 0 then 1 else 2 * Pow2(k - 1)
  }

  lemma Pow2Of64()
    ensures Pow2(64) == TWO64
  {
    assert Pow2(8) == 0x100;
    assert Pow2(16) == 0x1_0000;
    assert Pow2(24) == 0x100_0000;
    assert Pow2(32) == TWO32;
    assert Pow2(40) == 0x100_0000_0000;
    assert Pow2(48) == 0x1_0000_0000_0000;
    assert Pow2(56) == 0x100_0000_0000_0000;
  }

  lemma MulBound(x: nat, y: nat, m: nat, n: nat)
    requires x < m && y < n
    ensures x * y <= (m - 1) * (n - 1)
  {
    assert x * y <= (m - 1) * y;
    assert (m - 1) * y <= (m - 1) * (n - 1);
  }

  lemma NoWrap(x: nat)
    requires x < TWO64
    ensures Wrap(x) == x
  {
  }

  /** The carry out of a 64-bit addition shows in the sum being less than a summand. */
  lemma Carry(x: nat, y: nat)
    requires x < TWO64 && y < TWO64
    ensures var sum := (x + y) % TWO64; x + y == sum + if sum < y then TWO64 else 0
  {
  }

  function Low(word: nat): nat {
    word % TWO32
  }

  function High(word: nat): nat {
    word / TWO32
  }

  lemma HalfWords(word: nat)
    requires word < TWO63
    ensures word == High(word) * TWO32 + Low(word) && Low(word) < TWO32 && High(word) < 0x8000_0000
  {
  }

  lemma HalfProducts(a0: nat, a1: nat, b0: nat, b1: nat)
    requires a0 < TWO32 && b0 < TWO32 && a1 < 0x8000_0000 && b1 < 0x8000_0000
    ensures 0 <= a0 * b1 + a1 * b0 < TWO64 && 0 <= a0 * b0 < TWO64 && 0 <= a1 * b1
  {
    MulBound(a0, b1, TWO32, 0x8000_0000);
    MulBound(a1, b0, 0x8000_0000, TWO32);
    MulBound(a0, b0, TWO32, TWO32);
    MulNonNegative(a0, b1);
    MulNonNegative(a1, b0);
    MulNonNegative(a0, b0);
    MulNonNegative(a1, b1);
  }

  lemma Expand(a0: int, a1: int, b0: int, b1: int)
    ensures (a1 * TWO32 + a0) * (b1 * TWO32 + b0) == a1 * b1 * TWO64 + (a0 * b1 + a1 * b0) * TWO32 + a0 * b0
  {
    assert (a1 * TWO32 + a0) * (b1 * TWO32 + b0)
        == (a1 * TWO32) * (b1 * TWO32) + (a1 * TWO32) * b0 + a0 * (b1 * TWO32) + a0 * b0;
  }

  /** A two-word sum of which the high word does not overflow. */
  lemma AddWord(hi: nat, lo: nat, r: nat)
    requires lo < TWO64 && r < TWO64 && hi * TWO64 + lo + r < TWO63 * TWO64
    ensures var lo' := Wrap(lo + r);
            var hi' := Wrap(hi + if lo' < r then 1 else 0);
            lo' < TWO64 && hi' * TWO64 + lo' == hi * TWO64 + lo + r && hi' < TWO63
  {
    Carry(lo, r);
  }

  lemma MiddleWord(mid: nat)
    requires mid < TWO64
    ensures Wrap(mid * TWO32) < TWO64 && mid * TWO32 == mid / TWO32 * TWO64 + Wrap(mid * TWO32)
  {
  }

  method PartialProducts(a: nat, b: nat) returns (high: nat, mid: nat, low: nat)
    requires a < TWO63 && b < TWO63
    ensures high * TWO64 + mid * TWO32 + low == a * b && mid < TWO64 && low < TWO64
  {
    hide Low, High, Wrap;
    var a0, a1, b0, b1 := Low(a), High(a), Low(b), High(b);
    HalfWords(a);
    HalfWords(b);
    HalfProducts(a0, a1, b0, b1);
    Expand(a0, a1, b0, b1);
    NoWrap(a0 * b1 + a1 * b0);
    high, mid, low := a1 * b1, Wrap(a0 * b1 + a1 * b0), a0 * b0;
  }

  /** a * b + r in two words; `junk` is what the middle products leave in the third. */
  method WideProduct(a: nat, b: nat, r: nat) returns (hi: nat, lo: nat, junk: nat)
    requires a < TWO63 && b < TWO63 && r < TWO63
    ensures hi * TWO64 + lo == a * b + r
    ensures hi < TWO63 && lo < TWO64 && junk < TWO64
  {
    var high, t1, low := PartialProducts(a, b);
    MulBound(a, b, TWO63, TWO63);
    MiddleWord(t1);
    hide Wrap;
    var t1a := Wrap(t1 * TWO32);
    AddWord(high + t1 / TWO32, low, t1a);
    lo := Wrap(low + t1a);
    hi := Wrap(high + t1 / TWO32 + (if lo < t1a then 1 else 0));
    AddWord(hi, lo, r);
    lo := Wrap(lo + r);
    hi := Wrap(hi + (if lo < r then 1 else 0));
    junk := t1;
  }

  /** A word whose lowest bits, below p, are `rest`. */
  predicate Split(word: nat, above: nat, rest: nat, p: Pos) {
    word == above * p + rest && rest < p
  }

  lemma TopBit(word: nat, above: nat, rest: nat, p: Pos) returns (bit: nat, rest': nat)
    requires Split(word, above, rest, 2 * p)
    ensures bit == BitOf(word, p) == if rest >= p then 1 else 0
    ensures rest == (if bit == 1 then p else 0) + rest' && Split(word, 2 * above + bit, rest', p)
  {
    bit := if rest >= p then 1 else 0;
    rest' := rest - if bit == 1 then p else 0;
    assert (2 * above + bit) * p == above * (2 * p) + bit * p;
    DivUnique(word, 2 * above + bit, rest', p);
  }

  /** The quotient word after some shifts: junk above, quotient bits below p. */
  predicate Shifted(t1: nat, junk: nat, q: nat, p: Pos, above: Pos) {
    Split(t1, junk, q, p) && junk < above
  }

  /** Doubling a word drops its top bit; what was below stays. */
  lemma DoubleWord(t1: nat, junk: nat, q: nat, p: Pos, half: Pos, sub: nat) returns (junk': nat)
    requires Shifted(t1, junk, q, p, 2 * half) && half * (2 * p) == TWO64 && sub <= 1
    ensures Shifted(if sub == 1 then Wrap(Wrap(t1 + t1) + 1) else Wrap(t1 + t1), junk', 2 * q + sub, 2 * p, half)
  {
    var m;
    junk', m := DropTop(junk, p, 2 * p, half);
    WrapTwice(t1, m, q, sub, 2 * p, junk >= half);
  }

  lemma DropTop(junk: nat, p: Pos, w: Pos, half: Pos) returns (junk': nat, m: nat)
    requires w == 2 * p && half * w == TWO64 && junk < 2 * half
    ensures m == junk' * w && junk' < half && m <= TWO64 - w
    ensures 2 * (junk * p) == m + if junk >= half then TWO64 else 0
  {
    junk' := if junk >= half then junk - half else junk;
    MulNonNegative(junk', w);
    m := junk' * w;
    assert 2 * (junk * p) == junk * w;
    assert (junk - half) * w == junk * w - half * w;
    assert (half - 1 - junk') * w == half * w - w - m;
    MulNonNegative(half - 1 - junk', w);
  }

  lemma WrapTwice(t1: nat, m: nat, q: nat, sub: nat, w: nat, top: bool)
    requires 2 * t1 == m + (if top then TWO64 else 0) + 2 * q && 2 * q + 1 < w <= TWO64 && m <= TWO64 - w && sub <= 1
    ensures (if sub == 1 then Wrap(Wrap(t1 + t1) + 1) else Wrap(t1 + t1)) == m + 2 * q + sub
  {
  }

  /** What has been divided so far, with quotient q and remainder rem; p weighs the rest. */
  predicate Divided(n: nat, q: nat, c: Pos, rem: nat, p: Pos, rest: nat) {
    n == (q * c + rem) * p + rest && rem < c
  }

  lemma DivisionStep(n: nat, q: nat, c: Pos, rem: nat, p: Pos, rest: nat, bit: nat, rest': nat) returns (sub: nat)
    requires Divided(n, q, c, rem, 2 * p, rest) && bit <= 1 && rest == (if bit == 1 then p else 0) + rest'
    ensures sub == if c <= 2 * rem + bit then 1 else 0
    ensures var rem' := 2 * rem + bit - if sub == 1 then c else 0;
            rem' >= 0 && Divided(n, 2 * q + sub, c, rem', p, rest')
  {
    sub := if c <= 2 * rem + bit then 1 else 0;
    var m := 2 * (q * c + rem);
    assert (2 * q + sub) * c == 2 * (q * c) + sub * c;
    assert (q * c + rem) * (2 * p) == m * p;
    assert (m + bit) * p == m * p + bit * p;
  }

  lemma DividedLess(n: nat, q: nat, c: Pos, rem: nat, p: Pos, rest: nat)
    requires Divided(n, q, c, rem, p, rest)
    ensures rem < c
  {
  }

  lemma Pow2Step(k: nat)
    ensures Pow2(k + 1) == 2 * Pow2(k)
  {
  }

  lemma {:induction false} Pow2Split(k: nat)
    requires k < 64
    ensures Pow2(63 - k) * (2 * Pow2(k)) == TWO64
    decreases 64 - k
  {
    Pow2Of64();
    Pow2Step(63);
    if k < 63 {
      Pow2Split(k + 1);
      Pow2Step(62 - k);
      Pow2Step(k);
      MoveTwo(Pow2(62 - k), Pow2(k));
    }
  }

  lemma MoveTwo(h: int, p: int)
    ensures 2 * h * (2 * p) == h * (2 * (2 * p))
  {
  }

  /** With k bits of lo still to be shifted in: lo is split at bit k, the quotient word at bit
      64 - k; and unless the quotient is too long, a1 is the remainder so far. */
  predicate Dividing(hi: nat, lo: nat, c: Pos, k: nat, a1: nat, t1: nat, above: nat, rest: nat, junk: nat, q: nat)
    requires k <= 64
  {
    && Split(lo, above, rest, Pow2(k))
    && Shifted(t1, junk, q, Pow2(64 - k), Pow2(k))
    && (hi < c ==> Divided(hi * TWO64 + lo, q, c, a1, Pow2(k), rest))
    && (hi >= c ==> if k == 64 then a1 == hi else 2 * q >= Pow2(64 - k))
  }

  lemma DividingStep(hi: nat, lo: nat, c: Pos, k: nat, a1: nat, t1: nat, above: nat, rest: nat, junk: nat, q: nat)
    returns (bit: nat, rest': nat, junk': nat, sub: nat)
    requires hi < TWO63 && c < TWO63 && 0 < k <= 64 && Dividing(hi, lo, c, k, a1, t1, above, rest, junk, q)
    ensures bit == BitOf(lo, Pow2(k - 1))
    ensures var twice, t1' := Wrap(a1 + (a1 + bit)), Wrap(t1 + t1);
            if c <= twice then
              Dividing(hi, lo, c, k - 1, twice - c, Wrap(t1' + 1), 2 * above + bit, rest', junk', 2 * q + sub)
            else
              Dividing(hi, lo, c, k - 1, twice, t1', 2 * above + bit, rest', junk', 2 * q + sub)
  {
    Pow2Step(k - 1);
    Pow2Step(64 - k);
    Pow2Split(64 - k);
    hide Pow2, Split, Shifted, Divided, Wrap, BitOf;
    bit, rest' := TopBit(lo, above, rest, Pow2(k - 1));
    var twice := Wrap(a1 + (a1 + bit));
    sub := if c <= twice then 1 else 0;
    if hi < c {
      DividedLess(hi * TWO64 + lo, q, c, a1, Pow2(k), rest);
      NoWrap(a1 + (a1 + bit));
      var sub' := DivisionStep(hi * TWO64 + lo, q, c, a1, Pow2(k - 1), rest, bit, rest');
    } else if k == 64 {
      NoWrap(a1 + (a1 + bit));
    }
    junk' := DoubleWord(t1, junk, q, Pow2(64 - k), Pow2(k - 1), sub);
  }

  function WordsQuotient(hi: nat, lo: nat, c: Pos): int {
    (hi * TWO64 + lo) / c
  }

  /** Shift-and-subtract division of two words by c. The quotient word starts with junk, which
      64 shifts push out. A quotient of more than 64 bits leaves the top bit set. */
  method LongDivision(hi: nat, lo: nat, c: Pos, junk: nat) returns (t1: nat)
    requires hi < TWO63 && lo < TWO64 && c < TWO63 && junk < TWO64
    ensures hi < c ==> t1 == WordsQuotient(hi, lo, c)
    ensures hi >= c ==> t1 >= TWO63 && WordsQuotient(hi, lo, c) >= TWO63
  {
    var a1: nat := hi;
    t1 := junk;
    ghost var above: nat, rest: nat, old1: nat, q: nat := 0, lo, junk, 0;
    StartDivision(hi, lo, c, junk);
    hide Pow2, Dividing, Wrap, BitOf, WordsQuotient;
    var i := 63;
    while i >= 0
      invariant -1 <= i <= 63
      invariant Dividing(hi, lo, c, i + 1, a1, t1, above, rest, old1, q)
      decreases i
    {
      var bit := BitOf(lo, Pow2(i));
      ghost var bit', rest', junk', sub := DividingStep(hi, lo, c, i + 1, a1, t1, above, rest, old1, q);
      above, rest, old1, q := 2 * above + bit, rest', junk', 2 * q + sub;
      a1 := Wrap(a1 + (a1 + bit));
      t1 := Wrap(t1 + t1);
      if c <= a1 {
        a1 := a1 - c;
        t1 := Wrap(t1 + 1);
      }
      i := i - 1;
    }
    EndDivision(hi, lo, c, a1, t1, above, rest, old1, q);
  }

  lemma StartDivision(hi: nat, lo: nat, c: Pos, junk: nat)
    requires lo < TWO64 && junk < TWO64
    ensures Dividing(hi, lo, c, 64, hi, junk, 0, lo, junk, 0)
  {
    Pow2Of64();
  }

  lemma EndDivision(hi: nat, lo: nat, c: Pos, a1: nat, t1: nat, above: nat, rest: nat, junk: nat, q: nat)
    requires Dividing(hi, lo, c, 0, a1, t1, above, rest, junk, q)
    ensures hi < c ==> t1 == WordsQuotient(hi, lo, c)
    ensures hi >= c ==> t1 >= TWO63 && WordsQuotient(hi, lo, c) >= TWO63
  {
    Pow2Of64();
    var n := hi * TWO64 + lo;
    assert Pow2(0) == 1 && junk == 0 && t1 == q;
    if hi < c {
      DivUnique(n, q, a1, c);
    } else {
      DivFloor(n, c, TWO63);
      assert TWO63 * c <= hi * TWO64;
    }
  }

  // ---- av_rescale_rnd ----

  lemma QuotientSum(k: int, x: nat, c: Pos)
    ensures (k * c + x) / c == k + x / c
  {
    assert x == x / c * c + x % c;
    assert (k + x / c) * c == k * c + x / c * c;
    DivUnique(k * c + x, k + x / c, x % c, c);
  }

  lemma QuotientAtMost(m: nat, b: nat, r: nat, c: Pos)
    requires m < c && r < c
    ensures m * b >= 0 && 0 <= (m * b + r) / c <= b
  {
    MulNonNegative(m, b);
    MulNonNegative(c - 1 - m, b);
    assert (c - 1 - m) * b == c * b - b - m * b;
    assert (b + 1) * c == c * b + c;
    DivFloor(m * b + r, c, b + 1);
    DivFloor(m * b + r, c, 0);
  }

  /** Dividing a by c first: the quotient is exact, the remainder is rescaled. */
  lemma DivideFirst(a: nat, b: nat, c: Pos, r: nat)
    requires r < c
    ensures (a * b + r) / c == a / c * b + (a % c * b + r) / c
    ensures 0 <= (a % c * b + r) / c <= b
  {
    var q, m := a / c, a % c;
    QuotientAtMost(m, b, r, c);
    QuotientSum(q * b, m * b + r, c);
    assert a * b + r == q * b * c + (m * b + r) by { FirstProduct(a, q, c, m, b); }
  }

  lemma FirstProduct(a: int, q: int, c: int, m: int, b: int)
    requires a == q * c + m
    ensures a * b == q * b * c + m * b
  {
    assert (q * c + m) * b == q * c * b + m * b;
  }

  lemma QuotientLess(n: nat, c: Pos)
    ensures 0 <= n / c <= n
  {
    assert n == n / c * c + n % c;
    DivFloor(n, c, 0);
    MulNonNegative(n / c, c - 1);
    assert n / c * (c - 1) == n / c * c - n / c;
  }

  /** The test for a sum out of range. */
  lemma OverflowTest(ad: nat, b: nat, a2: nat)
    requires a2 <= b <= INT_MAX
    ensures ad * b >= 0
    ensures ad >= INT_MAX && b != 0 && ad > (INT64_MAX - a2) / b <==> ad * b + a2 > INT64_MAX
  {
    MulNonNegative(ad, b);
    if b > 0 {
      DivFloor(INT64_MAX - a2, b, ad);
      if ad < INT_MAX {
        MulBound(ad, b, INT_MAX, INT_MAX + 1);
      }
    }
  }

  /** The path for factors within int range. */
  method RescaleSmall(a: nat, b: nat, c: Pos, r: nat) returns (x: int)
    requires a <= INT64_MAX && b <= INT_MAX && c <= INT_MAX && r < c
    ensures x == Fit((a * b + r) / c)
  {
    MulNonNegative(a, b);
    if a <= INT_MAX {
      MulBound(a, b, INT_MAX + 1, INT_MAX + 1);
      var n := a * b + r;
      QuotientLess(n, c);
      return n / c;
    }
    DivideFirst(a, b, c, r);
    QuotientLess(a, c);
    var ad := a / c;
    var a2 := (a % c * b + r) / c;
    OverflowTest(ad, b, a2);
    if ad >= INT_MAX && b != 0 && ad > (INT64_MAX - a2) / b {
      return INT64_MIN;
    }
    return ad * b + a2;
  }

  method RescalePositive(a: nat, b: nat, c: Pos, rnd: Rounding) returns (x: int)
    requires a <= INT64_MAX && b <= INT64_MAX && c <= INT64_MAX
    ensures x == Fit((a * b + Bias(c, rnd)) / c)
  {
    var r := Bias(c, rnd);
    if b <= INT_MAX && c <= INT_MAX {
      x := RescaleSmall(a, b, c, r);
      return;
    }
    var hi, lo, junk := WideProduct(a, b, r);
    DivFloor(a * b + r, c, 0);
    var t1 := LongDivision(hi, lo, c, junk);
    return if t1 > INT64_MAX then INT64_MIN else t1;
  }

  function Clamp(a: int): int {
    if a < -INT64_MAX then -INT64_MAX else a
  }

  /** av_rescale_rnd: over all 64-bit arguments the exact rounded value if it is in range, and
      INT64_MIN otherwise, whichever of the three ways of computing it is taken. The least
      64-bit number is rescaled as the next one. */
  method RescaleRnd(a: int, b: int, c: int, rnd: Rounding, passMinMax: bool) returns (x: int)
    requires Int64(a) && Int64(b) && Int64(c)
    ensures c <= 0 || b < 0 ==> x == INT64_MIN
    ensures c > 0 && b >= 0 && passMinMax && (a == INT64_MIN || a == INT64_MAX) ==> x == a
    ensures c > 0 && b >= 0 && !(passMinMax && (a == INT64_MIN || a == INT64_MAX)) ==>
              x == Fit(Rounded(Clamp(a), b, c, rnd))
  {
    if c <= 0 || b < 0 {
      return INT64_MIN;
    }
    if passMinMax && (a == INT64_MIN || a == INT64_MAX) {
      return a;
    }
    if a < 0 {
      x := RescalePositive(-Clamp(a), b, c, Flip(rnd));
      DivFloor(-Clamp(a) * b + Bias(c, Flip(rnd)), c, 0);
      return Negate(x);
    }
    x := RescalePositive(a, b, c, rnd);
  }

  /** Unsigned negation, read back as a signed word: INT64_MIN is its own negative. */
  function Negate(x: int): int
    requires Int64(x)
  {
    if x == INT64_MIN then x else -x
  }

  // ---- av_rescale_q and av_compare_ts ----

  predicate IntRational(tb: Rational) {
    tb.num <= INT_MAX && tb.den <= INT_MAX
  }

  lemma IntProduct(x: Pos, y: Pos)
    requires x <= INT_MAX && y <= INT_MAX
    ensures 0 < x * y <= INT64_MAX
  {
    MulPos(x, y);
    MulBound(x, y, INT_MAX + 1, INT_MAX + 1);
  }

  /** av_rescale_q is the rescaling of module Time wherever that is in range. */
  method RescaleQ(ts: int, from: Rational, to: Rational) returns (x: int)
    requires Int64(ts) && IntRational(from) && IntRational(to)
    ensures x == Fit(Rescale(Clamp(ts), from, to))
  {
    IntProduct(from.num, to.den);
    IntProduct(to.num, from.den);
    RoundedIsTime(Clamp(ts), Product(from.num, to.den), Product(to.num, from.den));
    x := RescaleRnd(ts, from.num * to.den, to.num * from.den, NearInf, false);
  }

  /** av_compare_ts on 64-bit words. */
  function Compare64(tsA: int, tbA: Rational, tsB: int, tbB: Rational): int {
    var a, b := Product(tbA.num, tbB.den), Product(tbB.num, tbA.den);
    if SmallOperands(tsA, a, tsB, b) then
      (if tsA * a > tsB * b then 1 else 0) - (if tsA * a < tsB * b then 1 else 0)
    else if Fit(RescaleDown(Clamp(tsA), a, b)) < tsB then -1
    else if Fit(RescaleDown(Clamp(tsB), b, a)) < tsA then 1
    else 0
  }

  predicate SmallOperands(tsA: int, a: Pos, tsB: int, b: Pos) {
    Abs(tsA) <= INT_MAX && a <= INT_MAX && Abs(tsB) <= INT_MAX && b <= INT_MAX
  }

  method CompareTs64(tsA: int, tbA: Rational, tsB: int, tbB: Rational) returns (x: int)
    requires Int64(tsA) && Int64(tsB) && IntRational(tbA) && IntRational(tbB)
    ensures x == Compare64(tsA, tbA, tsB, tbB)
  {
    IntProduct(tbA.num, tbB.den);
    IntProduct(tbB.num, tbA.den);
    var a, b := Product(tbA.num, tbB.den), Product(tbB.num, tbA.den);
    if SmallOperands(tsA, a, tsB, b) {
      return (if tsA * a > tsB * b then 1 else 0) - (if tsA * a < tsB * b then 1 else 0);
    }
    RoundedIsTime(Clamp(tsA), a, b);
    RoundedIsTime(Clamp(tsB), b, a);
    var down := RescaleRnd(tsA, a, b, Rounding.Down, false);
    if down < tsB {
      return -1;
    }
    down := RescaleRnd(tsB, b, a, Rounding.Down, false);
    if down < tsA {
      return 1;
    }
    return 0;
  }

  /** When the 64-bit comparison is right: small operands; or the first timestamp, in ticks of the
      second base, in range. The least 64-bit number, of which only the next one is rescaled, is
      told from equal numbers and from numbers after that one. */
  predicate ComparesRight(tsA: int, a: Pos, tsB: int, b: Pos) {
    || SmallOperands(tsA, a, tsB, b)
    || (if tsA == INT64_MIN && tsB == INT64_MIN then a == b
        else if tsA == INT64_MIN then tsB * b == tsA * a || tsB * b > -INT64_MAX * a
        else if tsB == INT64_MIN then tsA * a == tsB * b || tsA * a > -INT64_MAX * b
        else RescaleDown(tsA, a, b) <= INT64_MAX)
  }

  /** The 64-bit comparison orders two timestamps rightly exactly under that condition. Where the
      first timestamp is out of range it is much the later one, and is called the earlier. */
  lemma CompareRightIff(tsA: int, tbA: Rational, tsB: int, tbB: Rational)
    requires Int64(tsA) && Int64(tsB)
    ensures Compare64(tsA, tbA, tsB, tbB) == CompareTs(tsA, tbA, tsB, tbB) <==>
              ComparesRight(tsA, Product(tbA.num, tbB.den), tsB, Product(tbB.num, tbA.den))
  {
    hide RescaleDown, CompareTs;
    var a, b := Product(tbA.num, tbB.den), Product(tbB.num, tbA.den);
    CompareIsCross(tsA, tbA, tsB, tbB);
    DownBelow(Clamp(tsA), a, b, tsB);
    DownBelow(Clamp(tsB), b, a, tsA);
    if RescaleDown(Clamp(tsB), b, a) > INT64_MAX {
      FarBeyond(tsA, a, b, Clamp(tsB));
    }
    LeastProduct(a);
    LeastProduct(b);
    DownBelow(Clamp(tsA), a, b, INT64_MAX + 1);
    DownBelow(Clamp(tsB), b, a, INT64_MAX + 1);
    MulPos(INT64_MAX + 1, a);
    MulPos(INT64_MAX + 1, b);
    SameLeast(a, b);
    Verdict(tsA, tsB, RescaleDown(Clamp(tsA), a, b), RescaleDown(Clamp(tsB), b, a), tsA * a, tsB * b,
            Clamp(tsA) * a, Clamp(tsB) * b, a == b);
  }

  lemma LeastProduct(a: Pos)
    ensures INT64_MIN * a < -INT64_MAX * a < 0
  {
  }

  lemma SameLeast(a: Pos, b: Pos)
    ensures INT64_MIN * a == INT64_MIN * b <==> a == b
  {
  }

  lemma FarBeyond(tsA: int, a: Pos, b: Pos, tsB: int)
    requires tsA <= INT64_MAX && RescaleDown(tsB, b, a) > INT64_MAX
    ensures tsA * a < tsB * b
  {
    hide RescaleDown;
    DownBelow(tsB, b, a, INT64_MAX + 1);
    MulPos(INT64_MAX + 1 - tsA, a);
    assert (INT64_MAX + 1 - tsA) * a == (INT64_MAX + 1) * a - tsA * a;
  }

  /** The two tests on rescaled operands, against the order of x and y; cx and cy are these with the
      least number replaced by the next. */
  lemma Verdict(tsA: int, tsB: int, downA: int, downB: int, x: int, y: int, cx: int, cy: int, same: bool)
    requires Int64(tsA) && Int64(tsB)
    requires downA < tsB <==> cx < y
    requires downB < tsA <==> cy < x
    requires downB > INT64_MAX ==> x < cy
    requires cx < 0 ==> downA <= INT64_MAX
    requires cy < 0 ==> downB <= INT64_MAX
    requires if tsA == INT64_MIN then x < cx < 0 else cx == x
    requires if tsB == INT64_MIN then y < cy < 0 else cy == y
    requires tsA == INT64_MIN && tsB == INT64_MIN ==> (x == y <==> same)
    ensures var verdict := if Fit(downA) < tsB then -1 else if Fit(downB) < tsA then 1 else 0;
            verdict == (if x < y then -1 else if x > y then 1 else 0) <==>
              if tsA == INT64_MIN && tsB == INT64_MIN then same
              else if tsA == INT64_MIN then y == x || y > cx
              else if tsB == INT64_MIN then x == y || x > cy
              else downA <= INT64_MAX
  {
  }

  /** Timestamps of one time base are ordered rightly, but for the least number and the next. */
  lemma SameBaseRightIff(tsA: int, tsB: int, tb: Rational)
    requires Int64(tsA) && Int64(tsB)
    ensures Compare64(tsA, tb, tsB, tb) == (if tsA < tsB then -1 else if tsA > tsB then 1 else 0) <==>
              !((tsA == INT64_MIN && tsB == -INT64_MAX) || (tsA == -INT64_MAX && tsB == INT64_MIN))
  {
    hide RescaleDown, Compare64, CompareTs;
    var a := Product(tb.num, tb.den);
    CompareRightIff(tsA, tb, tsB, tb);
    if RescaleDown(tsA, a, a) > INT64_MAX {
      FarBeyond(tsA, a, a, tsA);
    }
    CompareIsCross(tsA, tb, tsB, tb);
    SameFactor(tsA, tsB, a);
    SameFactor(-INT64_MAX, tsB, a);
    SameFactor(-INT64_MAX, tsA, a);
  }

  lemma SameFactor(x: int, y: int, a: Pos)
    ensures x < y <==> x * a < y * a
    ensures x == y <==> x * a == y * a
  {
    assert (y - x) * a == y * a - x * a;
    MulGap(y - x, a);
  }

  /** The greatest timestamp in seconds counts as earlier than zero milliseconds. */
  lemma FarTimestampMisordered()
    ensures var s, ms := Rational(1, 1), Rational(1, 1000);
            Compare64(INT64_MAX, s, 0, ms) == -1 && CompareTs(INT64_MAX, s, 0, ms) == 1
  {
  }
}
