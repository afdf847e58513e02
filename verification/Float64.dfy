/** float64 on whole numbers, and the division facts it takes. */
module Float64 {

  // ----- division -----

  lemma MultiplesAreApart(a: int, y: int)
    requires a >= 0
    ensures y > 0 ==> a * y >= a
    ensures y < 0 ==> a * y <= -a
  {}

  lemma NoRemainder(n: int, a: nat, x: int)
    requires a > 0 && n == a * x
    ensures n % a == 0
  {
    assert n == a * (n / a) + n % a;
    assert a * (x - n / a) == n % a;
    MultiplesAreApart(a, x - n / a);
  }

  lemma MultipleOfMore(n: int, k: int, a: nat)
    requires k > 0 && a > 0 && k * a > 0 && n % (k * a) == 0
    ensures n % a == 0
  {
    var q := n / (k * a);
    assert (k * a) * q == a * (k * q);
    NoRemainder(n, a, k * q);
  }

  lemma QuotientIs(x: nat, d: nat, q: nat, r: nat)
    requires d > 0 && x == d * q + r && r < d
    ensures x / d == q
  {
    assert x == d * (x / d) + x % d;
    MultiplesAreApart(d, q - x / d);
    assert d * (q - x / d) == x % d - r;
  }

  // ----- float64 -----

  const TWO_53 := 0x20_0000_0000_0000

  /** The distance between neighbouring float64s at x: a power of two. */
  function Ulp(x: nat): (u: nat)
    ensures u > 0 && (x > 0 ==> u <= x)
  {
    if x < TWO_53 then 1 else 2 * Ulp(x / 2)
  }

  /** The whole number nearest to a / b, the even one of two equally near. */
  function NearestEven(a: nat, b: nat): (q: nat)
    requires b > 0
  {
    if 2 * (a % b) > b || (2 * (a % b) == b && a / b % 2 == 1) then a / b + 1 else a / b
  }

  /** The float64 nearest to x, the even one of two equally near (IEEE 754, section 4.3.1). */
  function Rounded(x: nat): nat {
    NearestEven(x, Ulp(x)) * Ulp(x)
  }

  predicate Representable(x: nat) { x % Ulp(x) == 0 }

  /** Rounding keeps exactly the numbers float64 has. */
  lemma RoundingKeepsIff(x: nat)
    ensures Rounded(x) == x <==> Representable(x)
  {
    var u := Ulp(x);
    var q, r := x / u, x % u;
    assert x == q * u + r;
    if r != 0 {
      assert (q + 1) * u == q * u + u;
    }
  }

  lemma DoublingKeeps(x: nat)
    requires Representable(x)
    ensures Representable(2 * x)
  {
    if 2 * x >= TWO_53 {
      assert Ulp(2 * x) == 2 * Ulp(x);
      var q := x / Ulp(x);
      assert x == Ulp(x) * q;
      assert 2 * x == (2 * Ulp(x)) * q;
      NoRemainder(2 * x, 2 * Ulp(x), q);
    }
  }

  function Pow2(e: nat): (p: nat)
    ensures p > 0
  {
    if e == 0 then 1 else 2 * Pow2(e - 1)
  }

  lemma {:induction false} ScalingKeeps(x: nat, e: nat)
    requires Representable(x)
    ensures Representable(x * Pow2(e))
  {
    hide Representable;
    if e > 0 {
      ScalingKeeps(x, e - 1);
      DoublingKeeps(x * Pow2(e - 1));
      assert x * (2 * Pow2(e - 1)) == 2 * (x * Pow2(e - 1));
    } else {
      assert x * Pow2(0) == x;
    }
  }

  lemma SmallIsRepresentable(x: nat)
    requires x <= TWO_53
    ensures Representable(x)
  {
    assert Ulp(TWO_53) == 2 * Ulp(TWO_53 / 2) == 2;
  }

  lemma {:induction false} UlpIsAPower(x: nat) returns (e: nat)
    ensures Ulp(x) == Pow2(e) && x / Ulp(x) < TWO_53
  {
    e := 0;
    if x >= TWO_53 {
      var half := UlpIsAPower(x / 2);
      e := half + 1;
      var u := Ulp(x / 2);
      HalvesDivide(x, u);
    }
  }

  lemma HalvesDivide(x: nat, u: nat)
    requires u > 0
    ensures x / (2 * u) == (x / 2) / u
  {
    var q, r := (x / 2) / u, (x / 2) % u;
    assert x / 2 == u * q + r;
    var rest := x - (2 * u) * q;
    assert (2 * u) * q == 2 * (u * q);
    assert 0 <= rest < 2 * u;
    QuotientIs(x, 2 * u, q, rest);
  }

  /** What rounding gives is a float64, so rounding again changes nothing. */
  lemma RoundingIsIdempotent(x: nat)
    ensures Representable(Rounded(x)) && Rounded(Rounded(x)) == Rounded(x)
  {
    var e := UlpIsAPower(x);
    var q := x / Ulp(x);
    SmallIsRepresentable(q);
    SmallIsRepresentable(q + 1);
    ScalingKeeps(q, e);
    ScalingKeeps(q + 1, e);
    RoundingKeepsIff(Rounded(x));
  }

  lemma RoundingStaysPositive(x: nat)
    requires x > 0
    ensures Rounded(x) > 0
  {
    var u := Ulp(x);
    var q := x / u;
    assert x == q * u + x % u;
    assert q > 0;
    assert (q + 1) * u == q * u + u;
  }

  // ----- the float64 quotient -----

  /** A float64 that need not be whole. */
  datatype Ratio = Ratio(num: nat, den: nat)

  /** How often a / b doubles before it has 53 bits in front of the point. */
  function Scale(a: nat, b: nat): nat
    requires a > 0 && b > 0
    decreases b * (TWO_53 / 2) - a
  {
    if a >= b * (TWO_53 / 2) then 0 else 1 + Scale(2 * a, b)
  }

  /** The float64 nearest to a / b. */
  function Divided(a: nat, b: nat): (r: Ratio)
    requires b > 0
    ensures r.den > 0
  {
    if a == 0 then Ratio(0, 1)
    else if a / b >= TWO_53 then
      var u := Ulp(a / b);
      Ratio(NearestEven(a, Positive(b, u)) * u, 1)
    else Ratio(NearestEven(a * Pow2(Scale(a, b)), b), Pow2(Scale(a, b)))
  }

  function Positive(a: nat, b: nat): (p: nat)
    requires a > 0 && b > 0
    ensures p > 0 && p == a * b
  {
    a * b
  }

  /** The whole number nearest to x / y, the greater of two equally near: Math.round. */
  function Nearest(x: int, y: int): int
    requires y > 0
  {
    (2 * x + y) / (2 * y)
  }

  lemma NearestIs(x: int, y: int, r: int)
    requires y > 0
    ensures Nearest(x, y) == r <==> (2 * y) * r <= 2 * x + y < (2 * y) * r + 2 * y
  {
    var d, n := 2 * y, 2 * x + y;
    assert n == d * (n / d) + n % d;
    MultiplesAreApart(d, r - n / d);
    assert d * (r - n / d) == d * r - d * (n / d);
  }

  lemma NearestEvenIsNear(a: nat, b: nat)
    requires b > 0
    ensures 2 * (NearestEven(a, b) * b - a) <= b && 2 * (a - NearestEven(a, b) * b) <= b
  {
    assert a == (a / b) * b + a % b;
    assert (a / b + 1) * b == (a / b) * b + b;
  }

  lemma {:induction false} ScaleIsEnough(a: nat, b: nat)
    requires a > 0 && b > 0
    ensures a * Pow2(Scale(a, b)) >= b * (TWO_53 / 2)
    ensures a < b * (TWO_53 / 2) ==> Pow2(Scale(a, b)) % 2 == 0
    decreases b * (TWO_53 / 2) - a
  {
    if a < b * (TWO_53 / 2) {
      ScaleIsEnough(2 * a, b);
      assert a * (2 * Pow2(Scale(2 * a, b))) == (2 * a) * Pow2(Scale(2 * a, b));
    }
  }

  lemma Expanded(m: int, b: int, x: int, p: int)
    ensures (2 * m + p) * b == p * (2 * x + b) + 2 * (m * b - x * p)
  {}

  lemma Regrouped(p: int, b: int, r: int)
    ensures p * (2 * b * r) == (2 * p * r) * b
    ensures p * (2 * b * r + 2 * b - 1) == (2 * p * r + 2 * p) * b - p
  {
    assert p * (2 * b * r) == 2 * (p * (b * r)) == 2 * ((p * r) * b);
  }

  /** A product the solver does not look into. */
  function Times(a: int, b: int): int { a * b }

  lemma NotBelow(t: int, s: int, b: int, p: int, r: int)
    requires b > 0 && p >= 0 && s >= 2 * b * r && t * b >= p * s - b
    ensures t >= 2 * p * r - 1
  {
    ProductBetween(p, 2 * b * r, s, s);
    Regrouped(p, b, r);
    CancelBelow(t, 2 * p * r, b);
  }

  lemma NotAbove(t: int, s: int, b: int, p: int, r: int)
    requires 0 < b && 0 < p && s <= 2 * b * r + 2 * b - 1 && t * b <= p * s + b
    ensures t < 2 * p * r + 2 * p + 1
    ensures s <= 2 * b * r + 2 * b - 2 && b < 2 * p ==> t < 2 * p * r + 2 * p
    ensures b < p ==> t < 2 * p * r + 2 * p
  {
    ProductBetween(p, s, s, 2 * b * r + 2 * b - 1);
    Regrouped(p, b, r);
    CancelAbove(t, 2 * p * r + 2 * p + 1, b);
    if b < p { CancelAbove(t, 2 * p * r + 2 * p, b); }
    if s <= 2 * b * r + 2 * b - 2 && b < 2 * p {
      ProductBetween(p, s, s, 2 * b * r + 2 * b - 2);
      CancelAbove(t, 2 * p * r + 2 * p, b);
    }
  }

  lemma NumeratorIsBetween(x: int, b: int, m: int, p: int, r: int)
    requires 0 < b < 2 * p && Near(m, b, x, p)
    requires 2 * Times(b, r) <= 2 * x + b < 2 * Times(b, r) + 2 * b
    ensures 2 * Times(p, r) - 1 <= 2 * m + p <= 2 * Times(p, r) + 2 * p
    ensures 2 * x + b < 2 * Times(b, r) + 2 * b - 1 || b < p ==> 2 * m + p < 2 * Times(p, r) + 2 * p
  {
    Expanded(m, b, x, p);
    NotBelow(2 * m + p, 2 * x + b, b, p, r);
    NotAbove(2 * m + p, 2 * x + b, b, p, r);
  }

  lemma NearestIsBetween(x: int, y: int, r: int)
    requires y > 0
    ensures Nearest(x, y) == r <==> 2 * Times(y, r) <= 2 * x + y < 2 * Times(y, r) + 2 * y
  {
    hide Nearest;
    NearestIs(x, y, r);
    assert (2 * y) * r == 2 * (y * r);
  }

  /** m / p is x / b but for an error of at most half a unit of 1 / p. */
  predicate Near(m: int, b: int, x: int, p: int) {
    2 * (Times(m, b) - Times(x, p)) <= b && 2 * (Times(x, p) - Times(m, b)) <= b
  }

  /** x / b is half of 1 / b short of a half. */
  predicate JustBelowHalf(x: int, b: int)
    requires b > 0
  {
    (2 * x + b) % (2 * b) == 2 * b - 1
  }

  lemma JustBelowHalfIs(x: int, b: int, r: int)
    requires b > 0 && Nearest(x, b) == r
    ensures JustBelowHalf(x, b) <==> 2 * x + b == 2 * Times(b, r) + 2 * b - 1
  {
    assert 2 * x + b == (2 * b) * r + (2 * x + b) % (2 * b);
    assert (2 * b) * r == 2 * (b * r);
  }

  /** An error of half a unit of 1 / p moves x / b across a half only if x / b is just below one and 1 / p is coarser. */
  lemma NearestMoves(x: int, b: int, m: int, p: int)
    requires 0 < b < 2 * p && p % 2 == 0 && Near(m, b, x, p)
    ensures Nearest(m, p) == Nearest(x, b) + if JustBelowHalf(x, b) && p < b then 1 else 0
  {
    hide Nearest, JustBelowHalf;
    var r := Nearest(x, b);
    NearestIsBetween(x, b, r);
    JustBelowHalfIs(x, b, r);
    hide Times;
    NumeratorIsBetween(x, b, m, p, r);
    if JustBelowHalf(x, b) && p < b {
      CrossesExactly(x, b, m, p, r);
      TimesNext(p, r);
      NearestIsBetween(m, p, r + 1);
    } else {
      NearestIsBetween(m, p, r);
    }
  }

  lemma TimesNext(p: int, r: int)
    ensures Times(p, r + 1) == Times(p, r) + p
  {}

  lemma CrossesExactly(x: int, b: int, m: int, p: int, r: int)
    requires 0 < p < b && p % 2 == 0 && Near(m, b, x, p) && 2 * x + b == 2 * Times(b, r) + 2 * b - 1
    requires 2 * Times(p, r) - 1 <= 2 * m + p <= 2 * Times(p, r) + 2 * p
    ensures 2 * m + p == 2 * Times(p, r) + 2 * p
  {
    hide Times;
    var k := 2 * Times(p, r) + 2 * p - (2 * m + p);
    TimesExpanded(m, b, x, p);
    TimesRegrouped(p, b, r);
    TimesApart(2 * Times(p, r) + 2 * p, 2 * m + p, b);
    if k >= 2 { TimesAtLeast(k, b); }
  }

  lemma TimesExpanded(m: int, b: int, x: int, p: int)
    ensures Times(2 * m + p, b) == Times(p, 2 * x + b) + 2 * (Times(m, b) - Times(x, p))
  {
    Expanded(m, b, x, p);
  }

  lemma TimesRegrouped(p: int, b: int, r: int)
    ensures Times(p, 2 * Times(b, r) + 2 * b - 1) == Times(2 * Times(p, r) + 2 * p, b) - p
  {
    Regrouped(p, b, r);
    assert 2 * (b * r) == 2 * b * r && 2 * (p * r) == 2 * p * r;
  }

  lemma TimesApart(c: int, a: int, b: int)
    ensures Times(c - a, b) == Times(c, b) - Times(a, b)
  {}

  lemma TimesAtLeast(k: int, b: int)
    requires b > 0 && k >= 2
    ensures Times(k, b) >= 2 * b
  {
    ProductBetween(b, 2, k, k);
  }

  lemma ProductBetween(p: int, low: int, x: int, high: int)
    requires p >= 0 && low <= x <= high
    ensures p * low <= p * x <= p * high
  {}

  lemma CancelBelow(t: int, s: int, b: int)
    requires b > 0 && t * b >= s * b - b
    ensures t >= s - 1
  {
    assert (t - s + 1) * b >= 0;
    MultiplesAreApart(b, t - s + 1);
  }

  lemma CancelAbove(t: int, s: int, b: int)
    requires b > 0 && t * b < s * b
    ensures t < s
  {
    assert (s - t) * b > 0;
    MultiplesAreApart(b, s - t);
  }

  /** With 53 bits in front of the point and a below 2^53, the scale exceeds half the divisor. */
  lemma ScaleExceeds(a: nat, b: nat, p: nat)
    requires 0 < a < TWO_53 && b > 0 && a * p >= b * (TWO_53 / 2)
    ensures 2 * p > b
  {
    var half: int := TWO_53 / 2;
    assert p > 0;
    ProductBetween(p, a, a, 2 * half - 1);
    assert half * (2 * p - b) > 0;
    MultiplesAreApart(half, 2 * p - b);
  }

  /** What the division computes: a numerator over a power of two beyond half the divisor, and near. */
  lemma DividedIsNear(a: nat, b: nat)
    requires b > 1 && 0 < a < TWO_53
    ensures var q := Divided(a, b);
            b < 2 * q.den && q.den % 2 == 0 && q.den == Pow2(Scale(a, b)) && Near(q.num, b, a, q.den)
  {
    hide Scale, NearestEven, Ulp, Pow2, Times;
    ScaleIsEnough(a, b);
    ScaleExceeds(a, b, Pow2(Scale(a, b)));
    QuotientIsSmall(a, b);
    NearestTimes(a, b, Pow2(Scale(a, b)));
  }

  lemma NearestTimes(a: nat, b: nat, p: nat)
    requires b > 0
    ensures Near(NearestEven(a * p, b), b, a, p)
  {
    hide NearestEven;
    NearestEvenIsNear(a * p, b);
  }

  /** The greatest power of two that is at most b. */
  function TopPower(b: nat): (p: nat)
    requires b > 0
    ensures p <= b < 2 * p
  {
    if b == 1 then 1 else 2 * TopPower(b / 2)
  }

  lemma {:induction false} TopPowerIsAPower(b: nat) returns (e: nat)
    requires b > 0
    ensures TopPower(b) == Pow2(e)
  {
    e := 0;
    if b > 1 {
      e := TopPowerIsAPower(b / 2);
      e := e + 1;
    }
  }

  lemma {:induction false} ScaleIsLeast(a: nat, b: nat, e: nat)
    requires a > 0 && b > 0 && a * Pow2(e) >= b * (TWO_53 / 2)
    ensures Scale(a, b) <= e
    decreases e
  {
    if a < b * (TWO_53 / 2) {
      assert e > 0;
      assert (2 * a) * Pow2(e - 1) == a * (2 * Pow2(e - 1));
      ScaleIsLeast(2 * a, b, e - 1);
    }
  }

  lemma {:induction false} Pow2Grows(d: nat, e: nat)
    requires d <= e
    ensures Pow2(d) <= Pow2(e)
  {
    if d < e { Pow2Grows(d, e - 1); }
  }

  lemma {:induction false} PowersOfTwoAreEven(e: nat)
    ensures Pow2(e) == 1 || Pow2(e) % 2 == 0
  {}

  /** The quotient's denominator stays below an odd divisor exactly where a is large enough. */
  lemma CoarseIff(a: nat, b: nat)
    requires 0 < a < TWO_53 && b > 1 && b % 2 == 1
    ensures Pow2(Scale(a, b)) < b <==> a * TopPower(b) >= b * (TWO_53 / 2)
  {
    hide Scale, Pow2, TopPower;
    var e := Scale(a, b);
    var f := TopPowerIsAPower(b);
    ScaleIsEnough(a, b);
    if a * Pow2(f) >= b * (TWO_53 / 2) {
      ScaleIsLeast(a, b, f);
      Pow2Grows(e, f);
      PowersOfTwoAreEven(f);
    } else {
      if e <= f {
        Pow2Grows(e, f);
        ProductBetween(a, Pow2(e), Pow2(e), Pow2(f));
      }
      Pow2Grows(f + 1, e);
      DoublePower(f);
    }
  }

  lemma DoublePower(f: nat)
    ensures Pow2(f + 1) == 2 * Pow2(f)
  {}

  /** Where float64 has too few places behind the point to keep x / b below the half it is just below. */
  predicate CrossesHalf(x: int, b: nat)
    requires b > 0
  {
    b > 1 && JustBelowHalf(x, b) && (if x < 0 then -x else x) * TopPower(b) >= b * (TWO_53 / 2)
  }

  /**
   * Below 2^53 the division in float64 rounds to the whole number the exact one does, except where
   * it crosses a half upward.
   */
  lemma DivisionRoundsExactlyIff(a: nat, b: nat)
    requires b > 0 && a < TWO_53
    ensures Nearest(Divided(a, b).num, Divided(a, b).den) == Nearest(a, b) + if CrossesHalf(a, b) then 1 else 0
    ensures Nearest(-(Divided(a, b).num as int), Divided(a, b).den)
            == Nearest(-(a as int), b) + if CrossesHalf(-(a as int), b) then 1 else 0
  {
    hide Nearest, Times, JustBelowHalf, TopPower;
    if a == 0 {
      NearestIs(0, b, 0);
      NearestIs(0, 1, 0);
    } else if b == 1 {
      DivisionByOne(a);
    } else {
      ProperDivision(a, b);
    }
  }

  lemma DivisionByOne(a: nat)
    requires a < TWO_53
    ensures Nearest(Divided(a, 1).num, Divided(a, 1).den) == a == Nearest(a, 1)
    ensures Nearest(-(Divided(a, 1).num as int), Divided(a, 1).den) == 0 - a == Nearest(-(a as int), 1)
  {
    hide Nearest, Divided;
    WholeQuotientIsExact(a, 1);
    NearestOfWhole(a, Divided(a, 1).den);
    NearestOfWhole(-(a as int), Divided(a, 1).den);
    Negated(a, Divided(a, 1).den);
    NearestOfWhole(a, 1);
    NearestOfWhole(-(a as int), 1);
  }

  lemma ProperDivision(a: nat, b: nat)
    requires b > 1 && 0 < a < TWO_53
    ensures Nearest(Divided(a, b).num, Divided(a, b).den) == Nearest(a, b) + if CrossesHalf(a, b) then 1 else 0
    ensures Nearest(-(Divided(a, b).num as int), Divided(a, b).den)
            == Nearest(-(a as int), b) + if CrossesHalf(-(a as int), b) then 1 else 0
  {
    hide Nearest, Divided, Scale, Pow2, Times, JustBelowHalf, TopPower;
    var x: int, m: int, p: int := a, Divided(a, b).num, Divided(a, b).den;
    DividedIsNear(a, b);
    NegatedTimes(m, b);
    NegatedTimes(x, p);
    NearestMoves(x, b, m, p);
    NearestMoves(-x, b, -m, p);
    if b % 2 == 1 {
      CoarseIff(a, b);
    } else {
      EvenIsNeverJustBelow(x, b);
      EvenIsNeverJustBelow(-x, b);
    }
  }

  lemma EvenIsNeverJustBelow(x: int, b: int)
    requires b > 0 && b % 2 == 0
    ensures !JustBelowHalf(x, b)
  {
    JustBelowHalfIs(x, b, Nearest(x, b));
    hide Nearest, Times, JustBelowHalf;
  }

  /** An even divisor leaves nothing just below a half. */
  lemma EvenDivisionIsExact(a: nat, b: nat)
    requires b > 0 && b % 2 == 0 && a < TWO_53
    ensures Nearest(Divided(a, b).num, Divided(a, b).den) == Nearest(a, b)
  {
    hide Nearest, Divided, JustBelowHalf, TopPower;
    DivisionRoundsExactlyIff(a, b);
    EvenIsNeverJustBelow(a, b);
  }

  lemma NegatedTimes(m: int, b: int)
    ensures Times(-m, b) == -Times(m, b)
  {}

  lemma Negated(m: int, b: int)
    ensures (-m) * b == -(m * b)
  {}

  lemma QuotientIsSmall(a: nat, b: nat)
    requires b > 0
    ensures a / b <= a
  {
    var q := a / b;
    assert a == q * b + a % b;
    MultiplesAreApart(q, b);
  }

  lemma {:induction false} ExactQuotient(q: nat, b: nat, p: nat)
    requires b > 0
    ensures NearestEven(q * b * p, b) == q * p
  {
    assert q * b * p == b * (q * p);
    QuotientIs(q * b * p, b, q * p, 0);
    NoRemainder(q * b * p, b, q * p);
  }

  /** A quotient that is whole is exact up to 2^53. */
  lemma WholeQuotientIsExact(q: nat, b: nat)
    requires b > 0 && q < TWO_53
    ensures var r := Divided(q * b, b); r.num == q * r.den
  {
    hide Scale, NearestEven, Ulp;
    QuotientIs(q * b, b, q, 0);
    if q * b > 0 { ExactQuotient(q, b, Pow2(Scale(q * b, b))); }
  }

  lemma NearestOfWhole(q: int, d: int)
    requires d > 0
    ensures Nearest(q * d, d) == q
  {
    NearestIs(q * d, d, q);
  }
}
