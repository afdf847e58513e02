/**
 * Amounts as a person types them and as a field shows them (frontend/src/format.ts), for currencies
 * whose minor unit need not be a decimal one. Numbers are float64, as in JavaScript.
 */
module Money {
  import opened Prelude
  import opened Text
  import opened Float64

  /** The decimals written, and how many minor units make one major unit. */
  datatype MoneyFormat = MoneyFormat(digits: nat, perMajor: nat)

  // ----- parsing -----

  predicate Kept(c: char) { IsDigit(c) || c == '.' || c == ',' || c == '-' }

  /** replace(/[^\d.,-]/gu, ""); spaces go with the rest. */
  function Filtered(text: string): string {
    if text == "" then "" else (if Kept(text[0]) then [text[0]] else "") + Filtered(text[1..])
  }

  function DigitRun(s: string): (n: nat)
    ensures n <= |s| && AllDigits(s[..n]) && (n < |s| ==> !IsDigit(s[n]))
  {
    if s != "" && IsDigit(s[0]) then
      assert s[..1 + DigitRun(s[1..])] == [s[0]] + s[1..][..DigitRun(s[1..])];
      1 + DigitRun(s[1..])
    else 0
  }

  datatype Typed = Typed(negative: bool, whole: string, fraction: string)

  /** The digits, and those behind one separator; nothing may follow. */
  function MatchedDigits(negative: bool, rest: string): Option<Typed> {
    var n := DigitRun(rest);
    if n == |rest| then Some(Typed(negative, rest, ""))
    else if rest[n] != '.' && rest[n] != ',' then None
    else if AllDigits(rest[n + 1..]) then Some(Typed(negative, rest[..n], rest[n + 1..]))
    else None
  }

  /** The match of /^(-?)(\d*)(?:[.,](\d*))?$/u. */
  function Matched(s: string): Option<Typed> {
    if s != "" && s[0] == '-' then MatchedDigits(true, s[1..]) else MatchedDigits(false, s)
  }

  function Zeros(n: nat): (z: string)
    ensures |z| == n && forall c | c in z :: c == '0'
  {
    seq(n, _ => '0')
  }

  /** fraction.padEnd(digits, "0").slice(0, digits). */
  function Scaled(fraction: string, digits: nat): (s: string)
    ensures |s| == digits
  {
    if |fraction| < digits then fraction + Zeros(digits - |fraction|) else fraction[..digits]
  }

  function Written(t: Typed, digits: nat): (s: string)
    requires AllDigits(t.whole) && AllDigits(t.fraction)
    ensures AllDigits(s) && s != ""
  {
    (if t.whole == "" then "0" else t.whole) + Scaled(t.fraction, digits)
  }

  lemma MatchedIsDigits(s: string)
    ensures Matched(s).Some? ==> AllDigits(Matched(s).value.whole) && AllDigits(Matched(s).value.fraction)
  {
    var rest := if s != "" && s[0] == '-' then s[1..] else s;
    assert rest[..|rest|] == rest;
  }

  /** Math.round((written * perMajor) / 10 ** digits), each step in float64. */
  function ToMinor(written: nat, money: MoneyFormat): nat {
    var q := Divided(Rounded(Rounded(written) * money.perMajor), Pow10(money.digits));
    NearestNat(q.num, q.den)
  }

  function NearestNat(x: nat, y: nat): (n: nat)
    requires y > 0
    ensures n == Nearest(x, y)
  {
    (2 * x + y) / (2 * y)
  }

  function ParseMoney(text: string, money: MoneyFormat): Option<int> {
    MatchedIsDigits(Filtered(text));
    var t := Matched(Filtered(text));
    if t.None? || (t.value.whole == "" && t.value.fraction == "") then None
    else
      var value: int := ToMinor(NumberOf(Written(t.value, money.digits)), money);
      Some(if t.value.negative then -value else value)
  }

  // ----- printing -----

  function Padded(s: string, width: nat): string {
    if |s| < width then Zeros(width - |s|) + s else s
  }

  /** Math.round((minorUnits * 10 ** digits) / perMajor). */
  function ToWritten(minorUnits: int, money: MoneyFormat): int
    requires money.perMajor > 0
  {
    var m: nat := if minorUnits < 0 then -minorUnits else minorUnits;
    var q := Divided(Rounded(m * Pow10(money.digits)), money.perMajor);
    var num: int := q.num;
    Nearest(if minorUnits < 0 then -num else num, q.den)
  }

  function MoneyInputValue(minorUnits: int, money: MoneyFormat): string
    requires money.perMajor > 0
  {
    if money.digits == 0 then FormatInt(minorUnits)
    else
      var written := ToWritten(minorUnits, money);
      var m: nat := if written < 0 then -written else written;
      var places := Padded(Decimal(m), money.digits + 1);
      var point := |places| - money.digits;
      (if written < 0 then "-" else "") + places[..point] + "." + places[point..]
  }

  // ----- what is printed is parsed -----

  lemma {:induction false} FilteredKeeps(text: string)
    requires forall c | c in text :: Kept(c)
    ensures Filtered(text) == text
  {
    if text != "" {
      assert text[0] in text;
      FilteredKeeps(text[1..]);
      assert text == [text[0]] + text[1..];
    }
  }

  lemma {:induction false} DigitRunIs(s: string, n: nat)
    requires n <= |s| && AllDigits(s[..n]) && (n < |s| ==> !IsDigit(s[n]))
    ensures DigitRun(s) == n
  {
    if n > 0 {
      assert s[..n] == [s[0]] + s[1..][..n - 1];
      assert s[0] in s[..n];
      assert forall c | c in s[1..][..n - 1] :: c in s[..n];
      DigitRunIs(s[1..], n - 1);
    }
  }

  lemma DigitsMatch(negative: bool, whole: string, fraction: string, point: bool)
    requires AllDigits(whole) && AllDigits(fraction) && (!point ==> fraction == "")
    ensures var body := whole + (if point then "." + fraction else "");
            MatchedDigits(negative, body) == Some(Typed(negative, whole, fraction))
  {
    hide DigitRun;
    var body := whole + (if point then "." + fraction else "");
    assert body[..|whole|] == whole;
    DigitRunIs(body, |whole|);
    if point { assert body[|whole| + 1..] == fraction; } else { assert body == whole; }
  }

  lemma MatchesAsTyped(negative: bool, whole: string, fraction: string, point: bool)
    requires AllDigits(whole) && AllDigits(fraction) && whole != "" && (!point ==> fraction == "")
    ensures var text := (if negative then "-" else "") + (whole + (if point then "." + fraction else ""));
            Filtered(text) == text && Matched(text) == Some(Typed(negative, whole, fraction))
  {
    hide Filtered, MatchedDigits;
    var body := whole + (if point then "." + fraction else "");
    var text := (if negative then "-" else "") + body;
    assert forall c | c in text :: Kept(c);
    FilteredKeeps(text);
    DigitsMatch(negative, whole, fraction, point);
    assert body[0] == whole[0] && whole[0] in whole;
    if negative { assert text[1..] == body; } else { assert text == body; }
  }

  lemma {:induction false} LeadingZeros(n: nat, s: string)
    requires AllDigits(s)
    ensures AllDigits(Zeros(n) + s) && NumberOf(Zeros(n) + s) == NumberOf(s)
  {
    if s == "" {
      assert Zeros(n) + s == Zeros(n);
      NumberOfZeros(n);
    } else {
      var front := s[..|s| - 1];
      LeadingZeros(n, front);
      assert (Zeros(n) + s)[..|Zeros(n) + s| - 1] == Zeros(n) + front;
    }
  }

  lemma {:induction false} NumberOfZeros(n: nat)
    ensures AllDigits(Zeros(n)) && NumberOf(Zeros(n)) == 0
  {
    if n > 0 {
      NumberOfZeros(n - 1);
      assert Zeros(n)[..n - 1] == Zeros(n - 1);
    }
  }

  lemma PaddedIsTheNumber(m: nat, width: nat)
    ensures var s := Padded(Decimal(m), width); |s| >= width && s != "" && AllDigits(s) && NumberOf(s) == m
  {
    hide Decimal;
    NumberOfDecimal(m);
    if |Decimal(m)| < width { LeadingZeros(width - |Decimal(m)|, Decimal(m)); }
  }

  /** What is written: the amount itself if no places are, and else the amount at that scale. */
  function WrittenAmount(n: int, money: MoneyFormat): int
    requires money.perMajor > 0
  {
    if money.digits == 0 then n else ToWritten(n, money)
  }

  /** What the parser makes of a written amount: its magnitude scaled back, under its sign. */
  function ParsedAmount(w: int, money: MoneyFormat): int
    requires money.perMajor > 0
  {
    var m: nat := if w < 0 then -w else w;
    var value: int := ToMinor(m, money);
    if w < 0 then -value else value
  }

  lemma WholeIsParsed(n: int, money: MoneyFormat)
    requires money.perMajor > 0 && money.digits == 0
    ensures ParseMoney(MoneyInputValue(n, money), money) == Some(ParsedAmount(n, money))
  {
    hide ToWritten, ToMinor, Decimal, Padded, Filtered, Matched, NumberOf;
    var m: nat := if n < 0 then -n else n;
    NumberOfDecimal(m);
    MatchesAsTyped(n < 0, Decimal(m), "", false);
    assert Decimal(m) + Scaled("", 0) == Decimal(m);
    assert MoneyInputValue(n, money) == (if n < 0 then "-" else "") + (Decimal(m) + "");
  }

  lemma PlacesAreParsed(n: int, money: MoneyFormat)
    requires money.perMajor > 0 && money.digits > 0
    ensures ParseMoney(MoneyInputValue(n, money), money) == Some(ParsedAmount(ToWritten(n, money), money))
  {
    hide ToWritten, ToMinor, Decimal, Padded, Filtered, Matched, NumberOf;
    var w := ToWritten(n, money);
    var m: nat := if w < 0 then -w else w;
    PaddedIsTheNumber(m, money.digits + 1);
    var places := Padded(Decimal(m), money.digits + 1);
    var point := |places| - money.digits;
    var whole, fraction := places[..point], places[point..];
    assert places == whole + fraction;
    assert forall c | c in places :: IsDigit(c);
    MatchesAsTyped(w < 0, whole, fraction, true);
    assert fraction[..money.digits] == fraction;
    assert MoneyInputValue(n, money) == (if w < 0 then "-" else "") + (whole + ("." + fraction));
  }

  /** The parser sees the written amount the printer wrote. */
  lemma PrintedIsParsed(n: int, money: MoneyFormat)
    requires money.perMajor > 0
    ensures ParseMoney(MoneyInputValue(n, money), money) == Some(ParsedAmount(WrittenAmount(n, money), money))
  {
    if money.digits == 0 { WholeIsParsed(n, money); } else { PlacesAreParsed(n, money); }
    hide ParsedAmount, ParseMoney, MoneyInputValue;
  }

  // ----- the arithmetic of a round trip -----

  function Magnitude(n: int): nat { if n < 0 then -n else n }

  /** Both products stay among the integers float64 has one by one. */
  predicate ProductsFit(n: int, money: MoneyFormat)
    requires money.perMajor > 0
  {
    && Magnitude(n) * Pow10(money.digits) < TWO_53
    && (money.digits > 0 ==> Magnitude(ToWritten(n, money)) * money.perMajor < TWO_53)
  }

  lemma Unsigned(n: int, t: nat)
    ensures n * t == if n < 0 then 0 - Magnitude(n) * t else Magnitude(n) * t
  {}

  lemma ToWrittenIs(n: int, money: MoneyFormat)
    requires 0 < money.perMajor && Magnitude(n) * Pow10(money.digits) < TWO_53
    ensures var x, p := n * Pow10(money.digits), money.perMajor;
            ToWritten(n, money) == Nearest(x, p) + if CrossesHalf(x, p) then 1 else 0
  {
    hide Nearest, Divided, Rounded, Pow10, CrossesHalf;
    var t, p := Pow10(money.digits), money.perMajor;
    SmallIsRepresentable(Magnitude(n) * t);
    RoundingKeepsIff(Magnitude(n) * t);
    DivisionRoundsExactlyIff(Magnitude(n) * t, p);
    Unsigned(n, t);
  }

  /** Twice what is written too much, in units of 1 / perMajor of a written place. */
  function Excess(x: int, w: int, p: nat): int { 2 * (w * p) - 2 * x }

  lemma WrittenIsNear(x: int, w: int, p: nat)
    requires p > 0 && w == Nearest(x, p) + if CrossesHalf(x, p) then 1 else 0
    ensures if CrossesHalf(x, p) then Excess(x, w, p) == p + 1 else 0 - p <= Excess(x, w, p) <= p
  {
    var r := Nearest(x, p);
    NearestIsBetween(x, p, r);
    JustBelowHalfIs(x, p, r);
    assert Times(p, r) == r * p && (r + 1) * p == r * p + p;
    hide Nearest, Times, JustBelowHalf, TopPower;
  }

  lemma Tenfold(k: nat)
    requires k > 0
    ensures Pow10(k) == 10 * Pow10(k - 1)
  {}

  lemma PowersOfTenAreEven(k: nat)
    ensures k > 0 ==> Pow10(k) % 2 == 0 && Pow10(k) >= 10
  {
    hide Pow10;
    if k > 0 { Tenfold(k); }
  }

  lemma ToMinorIsNearest(v: nat, money: MoneyFormat)
    requires 0 < money.perMajor && money.digits > 0 && v * money.perMajor < TWO_53
    ensures ToMinor(v, money) == Nearest(v * money.perMajor, Pow10(money.digits))
  {
    hide Nearest, Divided, Rounded, Pow10;
    PowersOfTenAreEven(money.digits);
    MultiplesAreApart(v, money.perMajor);
    SmallIsRepresentable(v);
    RoundingKeepsIff(v);
    SmallIsRepresentable(v * money.perMajor);
    RoundingKeepsIff(v * money.perMajor);
    EvenDivisionIsExact(v * money.perMajor, Pow10(money.digits));
  }

  /** The way back rounds to m exactly while the excess is less than half a minor unit. */
  lemma ReadsBackWhile(m: nat, v: nat, t: nat, p: nat)
    requires t > 0
    ensures Nearest(v * p, t) == m <==> 0 - t <= Excess(m * t, v, p) < t
  {
    hide Nearest;
    NearestIs(v * p, t, m);
    assert (2 * t) * m == 2 * (m * t);
  }

  /** What is written of a nonzero amount is not zero. */
  lemma SignStays(n: int, w: int, t: nat, p: nat)
    requires 0 < p <= t && 0 - p <= Excess(n * t, w, p) <= p + 1
    ensures n > 0 ==> w > 0
    ensures n < 0 && t > 1 ==> w < 0
  {
    if n > 0 && w <= 0 {
      ProductBetween(t, 1, n, n);
      ProductBetween(p, w, w, 0);
    }
    if n < 0 && w >= 0 && t > 1 {
      ProductBetween(t, n, n, -1);
      ProductBetween(p, 0, w, w);
    }
  }

  /**
   * Half a minor unit short of a written place, at a scale one less than the places, and too large
   * for float64 to tell: the amount is written one place too high, which reads as the next amount.
   */
  predicate Slips(n: int, money: MoneyFormat) {
    var t, p := Pow10(money.digits), money.perMajor;
    && 0 < p && p + 1 == t && n > 0
    && n % p == p / 2
    && n * t * TopPower(p) >= p * (TWO_53 / 2)
  }

  lemma HalfAway(n: int, p: nat)
    requires p > 0 && p % 2 == 1
    ensures JustBelowHalf(n * (p + 1), p) <==> n % p == p / 2
  {
    var k, r := n / p, n % p;
    var y := 2 * (n * (p + 1)) + p;
    assert n == p * k + r;
    assert y == (2 * p) * (n + k) + (2 * r + p);
    var q := y / (2 * p);
    assert y == (2 * p) * q + y % (2 * p);
    MultiplesAreApart(2 * p, q - (n + k));
    MultiplesAreApart(2 * p, q - (n + k) - 1);
    assert (2 * p) * (q - (n + k)) == (2 * r + p) - y % (2 * p);
    assert (2 * p) * (q - (n + k) - 1) == (2 * r + p) - y % (2 * p) - 2 * p;
  }

  lemma SlipsWhereItCrosses(n: int, money: MoneyFormat)
    requires money.digits > 0 && 0 < money.perMajor && money.perMajor + 1 == Pow10(money.digits)
    ensures n > 0 ==> (Slips(n, money) <==> CrossesHalf(n * Pow10(money.digits), money.perMajor))
  {
    hide Pow10, TopPower, JustBelowHalf;
    PowersOfTenAreEven(money.digits);
    HalfAway(n, money.perMajor);
    Unsigned(n, Pow10(money.digits));
  }

  lemma NothingCrossesEvenly(x: int, t: nat)
    requires t > 0 && t % 2 == 0
    ensures !CrossesHalf(x, t)
  {
    EvenIsNeverJustBelow(x, t);
    hide JustBelowHalf, TopPower;
  }

  /** Which excess is read back: all there are but that of a slip. */
  lemma ExcessIsForgiven(n: int, w: int, money: MoneyFormat)
    requires money.digits > 0 && 0 < money.perMajor <= Pow10(money.digits)
    requires var x, p := n * Pow10(money.digits), money.perMajor;
             w == Nearest(x, p) + if CrossesHalf(x, p) then 1 else 0
    ensures var m, v := Magnitude(n), Magnitude(w);
            && (n > 0 ==> w > 0) && (n < 0 ==> w < 0) && (n == 0 ==> w == 0)
            && (Nearest(v * money.perMajor, Pow10(money.digits)) == m <==> !Slips(n, money))
  {
    var t, p := Pow10(money.digits), money.perMajor;
    var m, v := Magnitude(n), Magnitude(w);
    hide Pow10, Nearest, CrossesHalf, Slips;
    PowersOfTenAreEven(money.digits);
    WrittenIsNear(n * t, w, p);
    SignStays(n, w, t, p);
    if n == 0 { NothingIsWritten(p); }
    Unsigned(n, t);
    Unsigned(w, p);
    ReadsBackWhile(m, v, t, p);
    SlipsOnlyThere(n, money);
    if p == t {
      NothingCrossesEvenly(n * t, t);
      NearestOfWhole(n, t);
    } else if p + 1 == t {
      SlipsWhereItCrosses(n, money);
    }
  }

  lemma NothingIsWritten(p: nat)
    requires p > 0
    ensures Nearest(0, p) == 0 && !CrossesHalf(0, p)
  {
    hide JustBelowHalf, TopPower;
  }

  lemma SlipsOnlyThere(n: int, money: MoneyFormat)
    ensures Slips(n, money) ==> n > 0 && money.perMajor + 1 == Pow10(money.digits)
  {
    hide Pow10, TopPower;
  }

  lemma WholeDivision(q: nat, b: nat)
    requires b > 0 && q * b < TWO_53
    ensures Rounded(q * b) == q * b && q < TWO_53
    ensures var r := Divided(q * b, b); NearestNat(r.num, r.den) == q && Nearest(0 - r.num, r.den) == 0 - q
  {
    hide Nearest, Divided, Rounded;
    MultiplesAreApart(q, b);
    SmallIsRepresentable(q * b);
    RoundingKeepsIff(q * b);
    WholeQuotientIsExact(q, b);
    var r := Divided(q * b, b);
    NearestOfWhole(q, r.den);
    NearestOfWhole(0 - q, r.den);
    Negated(q, r.den);
  }

  /** Where a written place is a minor unit, nothing is rounded at all. */
  lemma UnitsReadBack(n: int, money: MoneyFormat)
    requires money.digits == 0 && money.perMajor == 1 && Magnitude(n) < TWO_53
    ensures ParseMoney(MoneyInputValue(n, money), money) == Some(n)
  {
    hide ToMinor, ParseMoney, MoneyInputValue;
    PrintedIsParsed(n, money);
    DecimalIsExact(Magnitude(n), money);
  }

  /**
   * Where a minor unit is not finer than the places written for it, every amount whose products
   * float64 holds reads back as itself, negative ones and odd currencies included, if and only if it
   * does not slip.
   */
  lemma AmountsReadBackIff(n: int, money: MoneyFormat)
    requires 0 < money.perMajor <= Pow10(money.digits) && ProductsFit(n, money)
    ensures ParseMoney(MoneyInputValue(n, money), money) == Some(n) <==> !Slips(n, money)
  {
    hide Nearest, ToWritten, ToMinor, ParseMoney, MoneyInputValue, Slips, CrossesHalf;
    SlipsOnlyThere(n, money);
    if money.digits == 0 {
      UnitsReadBack(n, money);
    } else {
      hide Pow10;
      PrintedIsParsed(n, money);
      ToWrittenIs(n, money);
      ExcessIsForgiven(n, ToWritten(n, money), money);
      ToMinorIsNearest(Magnitude(ToWritten(n, money)), money);
    }
  }

  /** So they all do unless a major unit is one minor unit short of the written scale. */
  lemma AmountsReadBack(n: int, money: MoneyFormat)
    requires 0 < money.perMajor <= Pow10(money.digits) && ProductsFit(n, money)
    requires money.perMajor + 1 != Pow10(money.digits)
    ensures ParseMoney(MoneyInputValue(n, money), money) == Some(n)
  {
    hide ParseMoney, MoneyInputValue, Slips, Pow10, ToWritten;
    SlipsOnlyThere(n, money);
    AmountsReadBackIff(n, money);
  }

  /** Nine to the major unit, one place written. */
  const NINTHS := MoneyFormat(1, 9)

  /** An amount with both products below 2^53 that comes back as the next one. */
  lemma ANinthIsGained()
    ensures ProductsFit(529114434788074, NINTHS)
    ensures ParseMoney(MoneyInputValue(529114434788074, NINTHS), NINTHS) == Some(529114434788075)
  {
    hide ToWritten, ToMinor, ParseMoney, MoneyInputValue, CrossesHalf, Nearest;
    var n := 529114434788074;
    assert Pow10(1) == 10 && TopPower(9) == 8;
    assert Slips(n, NINTHS);
    SlipsWhereItCrosses(n, NINTHS);
    ToWrittenIs(n, NINTHS);
    NearestIs(n * 10, 9, 587904927542304);
    PrintedIsParsed(n, NINTHS);
    ToMinorIsNearest(587904927542305, NINTHS);
    NearestIs(587904927542305 * 9, 10, 529114434788075);
  }

  // ----- and only then -----

  lemma NearestGrows(x: int, y: int, d: int)
    requires d > 0 && x <= y
    ensures Nearest(x, d) <= Nearest(y, d)
  {
    hide Nearest;
    var q, r := Nearest(x, d), Nearest(y, d);
    NearestIs(x, d, q);
    NearestIs(y, d, r);
    MultiplesAreApart(2 * d, q - r - 1);
    assert (2 * d) * (q - r - 1) == (2 * d) * q - (2 * d) * r - 2 * d;
  }

  /** If every amount up to k came back, k of them would need k places. */
  lemma {:induction false} EachTakesAPlace(k: nat, t: nat, p: nat)
    requires 0 < p && 0 < t && forall n: nat | n <= k :: Nearest(Nearest(n * t, p) * p, t) == n
    ensures Nearest(k * t, p) >= k
  {
    hide Nearest;
    if k == 0 {
      NearestIs(0, p, 0);
    } else {
      EachTakesAPlace(k - 1, t, p);
      ProductBetween(t, k - 1, k - 1, k);
      NearestGrows((k - 1) * t, k * t, p);
      assert Nearest(Nearest((k - 1) * t, p) * p, t) == k - 1;
    }
  }

  lemma WrittenStaysSmall(n: nat, t: nat, p: nat)
    requires 0 < p && 0 < t
    ensures 0 <= Nearest(n * t, p) && Nearest(n * t, p) * p <= n * t + p
  {
    hide Nearest;
    var v := Nearest(n * t, p);
    NearestIs(n * t, p, v);
    assert (2 * p) * v == 2 * (v * p);
    NearestIs(0, p, 0);
    NearestGrows(0, n * t, p);
  }

  lemma SmallNeverCrosses(x: nat, p: nat)
    requires p > 0 && x < TWO_53 / 2
    ensures !CrossesHalf(x, p)
  {
    hide JustBelowHalf;
    var half: int := TWO_53 / 2;
    ProductBetween(x, TopPower(p), TopPower(p), p);
    ProductBetween(p, x, x, half - 1);
  }

  lemma ReadBackIsBack(n: nat, money: MoneyFormat)
    requires 0 < money.perMajor && money.digits > 0
    requires n * Pow10(money.digits) + money.perMajor < TWO_53 / 2
    ensures ProductsFit(n, money)
    ensures var t, p := Pow10(money.digits), money.perMajor;
            ParseMoney(MoneyInputValue(n, money), money) == Some(Nearest(Nearest(n * t, p) * p, t))
  {
    hide Nearest, ToWritten, ToMinor, ParseMoney, MoneyInputValue, Pow10, CrossesHalf;
    PrintedIsParsed(n, money);
    ToWrittenIs(n, money);
    SmallNeverCrosses(n * Pow10(money.digits), money.perMajor);
    WrittenStaysSmall(n, Pow10(money.digits), money.perMajor);
    ToMinorIsNearest(Nearest(n * Pow10(money.digits), money.perMajor), money);
  }

  lemma ProductsApart(k: nat, r: int, t: nat, p: nat)
    requires t < p
    ensures k * t <= Times(p, k) - k
    ensures k <= r ==> Times(p, k) <= Times(p, r)
  {
    ProductBetween(k, t, t, p - 1);
    assert k * (p - 1) == k * p - k;
    if k <= r { ProductBetween(p, k, k, r); }
  }

  /** More than half a major unit of a finer unit takes fewer places than it has units. */
  lemma FewerPlaces(k: nat, t: nat, p: nat)
    requires t < p < 2 * k
    ensures Nearest(k * t, p) < k
  {
    hide Nearest, Times;
    var r := Nearest(k * t, p);
    NearestIsBetween(k * t, p, r);
    ProductsApart(k, r, t, p);
  }

  /** The places for half a major unit and one do not suffice for as many of a finer unit. */
  lemma TooFewPlaces(t: nat, p: nat)
    requires 0 < t < p
    ensures exists n: nat :: n <= p / 2 + 1 && Nearest(Nearest(n * t, p) * p, t) != n
  {
    hide Nearest;
    var k := p / 2 + 1;
    if forall n: nat | n <= k :: Nearest(Nearest(n * t, p) * p, t) == n {
      EachTakesAPlace(k, t, p);
      FewerPlaces(k, t, p);
      assert false;
    }
  }

  lemma HalfTheUnits(n: nat, t: nat, p: nat)
    requires n <= p / 2 + 1 && (p + 2) * t + 2 * p < TWO_53
    ensures n * t + p < TWO_53 / 2
  {
    ProductBetween(t, 2 * n, 2 * n, p + 2);
    assert t * (2 * n) == 2 * (n * t) && t * (p + 2) == (p + 2) * t;
  }

  /** Half a major unit can be computed with below 2^53, with room for rounding. */
  predicate HalfAMajorFits(money: MoneyFormat) {
    (money.perMajor + 2) * Pow10(money.digits) + 2 * money.perMajor < TWO_53
  }

  /** A minor unit finer than the written places loses an amount of at most half a major unit and one. */
  lemma FinerUnitsLoseAnAmount(money: MoneyFormat) returns (n: nat)
    requires money.perMajor > Pow10(money.digits) && HalfAMajorFits(money)
    ensures ProductsFit(n, money) && ParseMoney(MoneyInputValue(n, money), money) != Some(n)
  {
    hide Nearest, ToMinor, ToWritten, ParseMoney, MoneyInputValue, Pow10;
    var t, p := Pow10(money.digits), money.perMajor;
    if money.digits == 0 {
      n := 1;
      OneUnit(money);
    } else {
      TooFewPlaces(t, p);
      n :| n <= p / 2 + 1 && Nearest(Nearest(n * t, p) * p, t) != n;
      HalfTheUnits(n, t, p);
      ReadBackIsBack(n, money);
    }
  }

  lemma OneUnit(money: MoneyFormat)
    requires money.digits == 0 && 1 < money.perMajor < TWO_53
    ensures ProductsFit(1, money)
    ensures ParseMoney(MoneyInputValue(1, money), money) == Some(money.perMajor)
  {
    hide Nearest, Divided, Rounded, ParseMoney, MoneyInputValue;
    PrintedIsParsed(1, money);
    SmallIsRepresentable(1);
    RoundingKeepsIff(1);
    WholeDivision(money.perMajor, 1);
  }

  ghost predicate AllReadBack(money: MoneyFormat)
    requires money.perMajor > 0
  {
    forall n: int | ProductsFit(n, money) :: ParseMoney(MoneyInputValue(n, money), money) == Some(n)
  }

  /**
   * All amounts of a currency survive the field exactly when its minor unit is not finer than what is
   * written and none slips; and one slips only where a major unit is one short of the written scale.
   */
  lemma CurrencyReadsBackIff(money: MoneyFormat)
    requires money.perMajor > 0
    ensures money.perMajor <= Pow10(money.digits) ==>
              && (AllReadBack(money) <==> forall n: int | ProductsFit(n, money) :: !Slips(n, money))
              && (money.perMajor + 1 != Pow10(money.digits) ==> AllReadBack(money))
    ensures money.perMajor > Pow10(money.digits) && HalfAMajorFits(money) ==> !AllReadBack(money)
  {
    hide ParseMoney, MoneyInputValue, Pow10, ProductsFit, Slips;
    forall n ensures Slips(n, money) ==> money.perMajor + 1 == Pow10(money.digits) { SlipsOnlyThere(n, money); }
    if money.perMajor <= Pow10(money.digits) {
      forall n: int | ProductsFit(n, money)
        ensures ParseMoney(MoneyInputValue(n, money), money) == Some(n) <==> !Slips(n, money)
      {
        AmountsReadBackIff(n, money);
      }
    } else if HalfAMajorFits(money) {
      var n := FinerUnitsLoseAnAmount(money);
    }
  }

  // ----- what is cut -----

  lemma {:induction false} NumberOfConcat(a: string, b: string)
    requires AllDigits(a) && AllDigits(b)
    ensures AllDigits(a + b) && NumberOf(a + b) == NumberOf(a) * Pow10(|b|) + NumberOf(b) && NumberOf(b) < Pow10(|b|)
  {
    if b == "" {
      assert a + b == a;
    } else {
      var front, d := b[..|b| - 1], DigitOf(b[|b| - 1]);
      var x, y, z := NumberOf(a), Pow10(|front|), NumberOf(front);
      assert (a + b)[..|a + b| - 1] == a + front;
      NumberOfConcat(a, front);
      assert NumberOf(a + b) == 10 * NumberOf(a + front) + d && NumberOf(b) == 10 * z + d;
      assert Pow10(|b|) == 10 * y;
      TenTimes(x, y, z, d);
    }
  }

  lemma TenTimes(x: nat, y: nat, z: nat, d: nat)
    ensures 10 * (x * y + z) + d == x * (10 * y) + (10 * z + d)
  {}

  lemma {:induction false} Pow10Adds(a: nat, b: nat)
    ensures Pow10(a + b) == Pow10(a) * Pow10(b)
  {
    if a > 0 { Pow10Adds(a - 1, b); }
  }

  function Signed(negative: bool, m: nat): int { if negative then -(m as int) else m }

  /** The text is this with characters in between that are no digit, separator or minus. */
  predicate Shows(text: string, kept: string) {
    if text == "" then kept == ""
    else if IsDigit(text[0]) || text[0] == '.' || text[0] == ',' || text[0] == '-' then
      kept != "" && kept[0] == text[0] && Shows(text[1..], kept[1..])
    else Shows(text[1..], kept)
  }

  /** Digits, or digits on either side of a point or a comma. */
  function Spelled(t: Typed, separator: string): string {
    (if t.negative then "-" else "") + (t.whole + (separator + t.fraction))
  }

  predicate Separates(separator: string, t: Typed) {
    separator == "." || separator == "," || (separator == "" && t.fraction == "")
  }

  predicate TypedAs(text: string, t: Typed, separator: string) {
    && AllDigits(t.whole) && AllDigits(t.fraction) && t.whole + t.fraction != ""
    && Separates(separator, t) && Shows(text, Spelled(t, separator))
  }

  lemma {:induction false} ShowsWhatIsFiltered(text: string, kept: string)
    ensures Shows(text, kept) <==> Filtered(text) == kept
  {
    if text != "" {
      ShowsWhatIsFiltered(text[1..], if kept != "" then kept[1..] else "");
      ShowsWhatIsFiltered(text[1..], kept);
      if kept != "" { assert kept == [kept[0]] + kept[1..]; }
    }
  }

  lemma SpelledMatches(t: Typed, separator: string)
    requires AllDigits(t.whole) && AllDigits(t.fraction) && Separates(separator, t)
    ensures Matched(Spelled(t, separator)) == Some(t)
  {
    var body := t.whole + (separator + t.fraction);
    hide DigitRun;
    assert body[..|t.whole|] == t.whole;
    DigitRunIs(body, |t.whole|);
    if separator == "" { assert body == t.whole; } else { assert body[|t.whole| + 1..] == t.fraction; }
    assert MatchedDigits(t.negative, body) == Some(t);
    if t.negative { assert ("-" + body)[1..] == body; } else { assert "" + body == body; }
    if t.whole != "" { assert t.whole[0] in t.whole; }
  }

  lemma DigitsAreSpelled(negative: bool, rest: string) returns (separator: string)
    ensures MatchedDigits(negative, rest).Some? ==>
      var t := MatchedDigits(negative, rest).value;
      t.negative == negative && Separates(separator, t) && rest == t.whole + (separator + t.fraction)
  {
    hide AllDigits;
    var n := DigitRun(rest);
    assert rest == rest[..n] + rest[n..];
    separator := "";
    if n < |rest| {
      separator := [rest[n]];
      assert rest[n..] == separator + rest[n + 1..];
    } else {
      assert rest == rest + ("" + "");
    }
  }

  lemma MatchedIsSpelled(s: string) returns (separator: string)
    ensures Matched(s).Some? ==> Separates(separator, Matched(s).value) && s == Spelled(Matched(s).value, separator)
  {
    hide MatchedDigits, Separates;
    if s != "" && s[0] == '-' {
      separator := DigitsAreSpelled(true, s[1..]);
      assert s == "-" + s[1..];
    } else {
      separator := DigitsAreSpelled(false, s);
      assert s == "" + s;
    }
  }

  /**
   * What can be typed: digits, a point or a comma and digits, a minus before them or not, and anything
   * else in between; there has to be a digit. Nothing else is an amount.
   */
  lemma TypedIff(text: string, money: MoneyFormat)
    ensures ParseMoney(text, money).Some? <==> exists t, separator :: TypedAs(text, t, separator)
    ensures forall t, separator | TypedAs(text, t, separator) :: Matched(Filtered(text)) == Some(t)
  {
    hide Filtered, Matched, Shows, Spelled, ToMinor, NumberOf, Written, Separates;
    forall t, separator | TypedAs(text, t, separator)
      ensures Matched(Filtered(text)) == Some(t)
    {
      ShowsWhatIsFiltered(text, Spelled(t, separator));
      SpelledMatches(t, separator);
    }
    MatchedIsDigits(Filtered(text));
    var separator := MatchedIsSpelled(Filtered(text));
    if ParseMoney(text, money).Some? {
      var t := Matched(Filtered(text)).value;
      ShowsWhatIsFiltered(text, Spelled(t, separator));
      assert TypedAs(text, t, separator);
    }
  }

  /**
   * For a decimal currency what is typed is cut to the places written: the result is the largest
   * number of minor units that is not more than was typed, in magnitude.
   */
  lemma TypedAmountsAreCut(text: string, t: Typed, separator: string, digits: nat)
    requires TypedAs(text, t, separator)
    requires NumberOf(Written(t, digits)) * Pow10(digits) < TWO_53
    ensures var money := MoneyFormat(digits, Pow10(digits));
            var typed, places := NumberOf(t.whole + t.fraction) * Pow10(digits), Pow10(|t.fraction|);
            exists m: nat ::
              && ParseMoney(text, money) == Some(Signed(t.negative, m))
              && m * places <= typed < (m + 1) * places
  {
    hide ToMinor, NumberOf, Pow10, Filtered, Matched, Written, Shows, Spelled;
    var money := MoneyFormat(digits, Pow10(digits));
    TypedIff(text, money);
    var m := NumberOf(Written(t, digits));
    DecimalIsExact(m, money);
    assert ParseMoney(text, money) == Some(Signed(t.negative, m));
    CutIsFloor(t, digits);
  }

  lemma DecimalIsExact(m: nat, money: MoneyFormat)
    requires money.perMajor == Pow10(money.digits) && m * Pow10(money.digits) < TWO_53
    ensures ToMinor(m, money) == m
  {
    hide Nearest, Divided, Rounded, Pow10;
    WholeDivision(m, Pow10(money.digits));
    SmallIsRepresentable(m);
    RoundingKeepsIff(m);
  }

  lemma PlacesAreFilled(t: Typed, digits: nat)
    requires AllDigits(t.whole) && AllDigits(t.fraction) && |t.fraction| < digits
    ensures NumberOf(Written(t, digits)) == NumberOf(t.whole + t.fraction) * Pow10(digits - |t.fraction|)
  {
    hide NumberOf, Pow10;
    var whole, zeros := if t.whole == "" then "0" else t.whole, Zeros(digits - |t.fraction|);
    NoWholeIsZero(t.whole, t.fraction);
    NumberOfZeros(digits - |t.fraction|);
    NumberOfConcat(whole + t.fraction, zeros);
    assert Written(t, digits) == whole + t.fraction + zeros;
  }

  lemma PlacesAreCut(t: Typed, digits: nat)
    requires AllDigits(t.whole) && AllDigits(t.fraction) && |t.fraction| >= digits
    ensures
      var rest := t.fraction[digits..];
      && AllDigits(rest) && NumberOf(rest) < Pow10(|t.fraction| - digits)
      && NumberOf(t.whole + t.fraction) == NumberOf(Written(t, digits)) * Pow10(|t.fraction| - digits) + NumberOf(rest)
  {
    hide NumberOf, Pow10;
    var whole := if t.whole == "" then "0" else t.whole;
    var front, rest := t.fraction[..digits], t.fraction[digits..];
    NoWholeIsZero(t.whole, t.fraction);
    assert t.fraction == front + rest && whole + t.fraction == whole + front + rest;
    NumberOfConcat(whole + front, rest);
  }

  lemma CutIsFloor(t: Typed, digits: nat)
    requires AllDigits(t.whole) && AllDigits(t.fraction)
    ensures var m, places := NumberOf(Written(t, digits)), Pow10(|t.fraction|);
            m * places <= NumberOf(t.whole + t.fraction) * Pow10(digits) < (m + 1) * places
  {
    hide NumberOf, Pow10, Written;
    var f, m := |t.fraction|, NumberOf(Written(t, digits));
    if f < digits {
      PlacesAreFilled(t, digits);
      Pow10Adds(digits - f, f);
      PadMore(NumberOf(t.whole + t.fraction), Pow10(digits - f), Pow10(f));
    } else {
      PlacesAreCut(t, digits);
      Pow10Adds(f - digits, digits);
      CutMore(m, NumberOf(t.fraction[digits..]), Pow10(f - digits), Pow10(digits));
    }
  }

  lemma NoWholeIsZero(whole: string, f: string)
    requires AllDigits(whole) && AllDigits(f)
    ensures NumberOf((if whole == "" then "0" else whole) + f) == NumberOf(whole + f)
  {
    hide NumberOf;
    if whole == "" {
      assert Zeros(1) == "0" && "" + f == f;
      LeadingZeros(1, f);
    }
  }

  lemma PadMore(all: nat, scale: nat, places: nat)
    requires places > 0
    ensures (all * scale) * places == all * (scale * places) < (all * scale + 1) * places
  {}

  lemma CutMore(m: nat, r: nat, scale: nat, t: nat)
    requires r < scale && t > 0
    ensures m * (scale * t) <= (m * scale + r) * t < (m + 1) * (scale * t)
  {
    assert (m * scale + r) * t == m * (scale * t) + r * t;
    ProductBetween(t, r, r, scale - 1);
    assert (m + 1) * (scale * t) == m * (scale * t) + scale * t;
    assert t * (scale - 1) == scale * t - t;
  }
}
