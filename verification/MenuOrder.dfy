/** F4.6, the order of a printed menu, as the summary sorts by it and as the SQL does. */
module MenuOrder {
  import opened Prelude
  import opened Text
  import opened Sorting

  const TWO_63: int := 0x8000_0000_0000_0000

  /** int64 arithmetic wraps around. */
  function Wrap64(x: int): (w: int)
    ensures -TWO_63 <= w < TWO_63
    ensures -TWO_63 <= x < TWO_63 ==> w == x
  {
    (x + TWO_63) % (2 * TWO_63) - TWO_63
  }

  /** One line of the order as it would be dictated. */
  datatype Line = Line(
    name: string, externalId: string, modifications: seq<string>, note: Option<string>,
    count: int, unitPrice: int, total: int)

  /** What numericID's loop has in n after reading these digits. */
  function Accumulated(digits: string): int
    requires AllDigits(digits)
  {
    if digits == "" then 0 else Wrap64(10 * Accumulated(digits[..|digits| - 1]) + DigitOf(digits[|digits| - 1]))
  }

  function NumericId(value: string): Option<int> {
    if value != "" && AllDigits(value) then Some(Accumulated(value)) else None
  }

  method ComputeNumericId(value: string) returns (n: int, ok: bool)
    ensures NumericId(value) == if ok then Some(n) else None
    ensures !ok ==> n == 0
  {
    if value == "" {
      return 0, false;
    }
    n := 0;
    for i := 0 to |value|
      invariant AllDigits(value[..i])
      invariant n == Accumulated(value[..i])
    {
      var r := value[i];
      if r < '0' || r > '9' {
        assert r in value;
        return 0, false;
      }
      assert value[..i + 1][..i] == value[..i];
      n := Wrap64(10 * n + DigitOf(r));
    }
    assert value[..|value|] == value;
    ok := true;
  }

  lemma WrapStep(x: int, d: int)
    ensures Wrap64(10 * Wrap64(x) + d) == Wrap64(10 * x + d)
  {
    var q := (x + TWO_63) / (2 * TWO_63);
    assert Wrap64(x) == x - 2 * TWO_63 * q;
    WrapShift(10 * x + d, 10 * q);
  }

  lemma WrapShift(x: int, q: int)
    ensures Wrap64(x - 2 * TWO_63 * q) == Wrap64(x)
  {
    var m := 2 * TWO_63;
    var y := x + TWO_63;
    assert y == m * (y / m) + y % m;
    var z := y - m * q;
    assert z == m * (y / m - q) + y % m;
    assert z == m * (z / m) + z % m;
    assert m * (z / m - (y / m - q)) == y % m - z % m;
  }

  /** The number read is the number written, modulo 2^64. */
  lemma {:induction false} AccumulatedIsWrapped(digits: string)
    requires AllDigits(digits)
    ensures Accumulated(digits) == Wrap64(NumberOf(digits))
  {
    if digits != "" {
      var front, d := digits[..|digits| - 1], DigitOf(digits[|digits| - 1]);
      AccumulatedIsWrapped(front);
      WrapStep(NumberOf(front), d);
    }
  }

  /** numericID reads a number correctly exactly when it is below 2^63; ids may have 32 digits. */
  lemma NumericIdIsExactIff(value: string)
    requires value != "" && AllDigits(value)
    ensures NumericId(value) == Some(NumberOf(value)) <==> NumberOf(value) < TWO_63
  {
    AccumulatedIsWrapped(value);
  }

  /** lessByMenuOrder. */
  predicate LessByMenuOrder(a: Line, b: Line, lower: char -> char) {
    var an := NumericId(a.externalId);
    var bn := NumericId(b.externalId);
    if a.externalId == "" && b.externalId != "" then false
    else if a.externalId != "" && b.externalId == "" then true
    else if an.Some? && bn.Some? && an != bn then an.value < bn.value
    else if an.Some? != bn.Some? then an.Some?
    else if a.externalId != b.externalId then StringLess(a.externalId, b.externalId)
    else StringLess(Lowered(a.name, lower), Lowered(b.name, lower))
  }

  function MenuLess(lower: char -> char): (Line, Line) -> bool {
    (a, b) => LessByMenuOrder(a, b, lower)
  }

  lemma MenuLessIrreflexive(a: Line, lower: char -> char)
    ensures !LessByMenuOrder(a, a, lower)
  {
    StringLessIrreflexive(Lowered(a.name, lower));
  }

  lemma MenuLessTransitive(a: Line, b: Line, c: Line, lower: char -> char)
    requires LessByMenuOrder(a, b, lower) && LessByMenuOrder(b, c, lower)
    ensures LessByMenuOrder(a, c, lower)
  {
    StringLessIrreflexive(a.externalId);
    if StringLess(a.externalId, b.externalId) && StringLess(b.externalId, c.externalId) {
      StringLessTransitive(a.externalId, b.externalId, c.externalId);
    }
    if StringLess(Lowered(a.name, lower), Lowered(b.name, lower))
       && StringLess(Lowered(b.name, lower), Lowered(c.name, lower)) {
      StringLessTransitive(Lowered(a.name, lower), Lowered(b.name, lower), Lowered(c.name, lower));
    }
  }

  lemma MenuNotLess(a: Line, b: Line, c: Line, lower: char -> char)
    requires !LessByMenuOrder(a, b, lower) && !LessByMenuOrder(b, c, lower)
    ensures !LessByMenuOrder(a, c, lower)
  {
    StringLessTotal(a.externalId, b.externalId);
    StringLessTotal(b.externalId, c.externalId);
    if !StringLess(a.externalId, b.externalId) && !StringLess(b.externalId, c.externalId) {
      StringNotLess(a.externalId, b.externalId, c.externalId);
    }
    if !StringLess(Lowered(a.name, lower), Lowered(b.name, lower))
       && !StringLess(Lowered(b.name, lower), Lowered(c.name, lower)) {
      StringNotLess(Lowered(a.name, lower), Lowered(b.name, lower), Lowered(c.name, lower));
    }
  }

  /** What sort.SliceStable asks of its less, whatever the ids. */
  lemma MenuLessIsStrictWeak(lower: char -> char)
    ensures StrictWeak(MenuLess(lower))
  {
    var less := MenuLess(lower);
    forall a ensures !less(a, a) { MenuLessIrreflexive(a, lower); }
    forall a, b, c | less(a, b) && less(b, c) ensures less(a, c) { MenuLessTransitive(a, b, c, lower); }
    forall a, b, c | !less(a, b) && !less(b, c) ensures !less(a, c) { MenuNotLess(a, b, c, lower); }
  }

  // ----- the ORDER BY of internal/db/menu.go:25 -----

  /** (CASE WHEN external_id ~ '^[0-9]+$' THEN external_id::bigint END), before its range is asked about. */
  function SqlNumber(externalId: string): Option<int> {
    if externalId != "" && AllDigits(externalId) then Some(NumberOf(externalId)) else None
  }

  /** external_id IS NULL, the number NULLS LAST, external_id, lower(name); "" reads NULL. */
  predicate SqlLess(a: Line, b: Line, lower: char -> char) {
    if (a.externalId == "") != (b.externalId == "") then a.externalId != ""
    else
      var an := SqlNumber(a.externalId);
      var bn := SqlNumber(b.externalId);
      if an != bn then an.Some? && (bn.None? || an.value < bn.value)
      else if a.externalId != b.externalId then StringLess(a.externalId, b.externalId)
      else StringLess(Lowered(a.name, lower), Lowered(b.name, lower))
  }

  predicate FitsBigint(externalId: string) {
    SqlNumber(externalId).Some? ==> SqlNumber(externalId).value < TWO_63
  }

  /** The summary reads in the order the menu is printed wherever the menu can be printed at all. */
  lemma SummaryOrderIsMenuOrder(a: Line, b: Line, lower: char -> char)
    requires FitsBigint(a.externalId) && FitsBigint(b.externalId)
    ensures LessByMenuOrder(a, b, lower) == SqlLess(a, b, lower)
  {
    if SqlNumber(a.externalId).Some? { NumericIdIsExactIff(a.externalId); }
    if SqlNumber(b.externalId).Some? { NumericIdIsExactIff(b.externalId); }
  }

  // ----- past int64 -----

  lemma {:induction false} NoLeadingZero(n: nat)
    requires n > 0
    ensures Decimal(n)[0] != '0'
  {
    if n >= 10 { NoLeadingZero(n / 10); }
  }

  /** Digits without a leading zero are how their number is written. */
  lemma {:induction false} DigitsAreDecimal(s: string)
    requires s != "" && AllDigits(s) && s[0] != '0'
    ensures NumberOf(s) > 0 && s == Decimal(NumberOf(s))
  {
    var front, c := s[..|s| - 1], s[|s| - 1];
    assert s == front + [c];
    assert c in s && s[0] in s;
    assert c == DigitChar(DigitOf(c));
    if front == "" {
      assert NumberOf(front) == 0;
    } else {
      DigitsAreDecimal(front);
      assert NumberOf(s) / 10 == NumberOf(front) && NumberOf(s) % 10 == DigitOf(c);
    }
  }

  /** Of all the ways to write a number the one without leading zeros comes last. */
  lemma DecimalComesLast(s: string)
    requires s != "" && AllDigits(s) && NumberOf(s) > 0
    ensures s == Decimal(NumberOf(s)) || StringLess(s, Decimal(NumberOf(s)))
  {
    hide NumberOf, Decimal;
    if s[0] == '0' {
      NoLeadingZero(NumberOf(s));
      assert s[0] in s && Decimal(NumberOf(s))[0] in Decimal(NumberOf(s));
    } else {
      DigitsAreDecimal(s);
    }
  }

  /** An id past int64 that wraps to the greatest int64 and is greater than that one's text as well. */
  predicate WrapsToTheTop(externalId: string) {
    NumericId(externalId) == Some(TWO_63 - 1) && StringLess(Decimal(TWO_63 - 1), externalId)
  }

  predicate BothAgree(a: Line, b: Line, lower: char -> char) {
    LessByMenuOrder(a, b, lower) == SqlLess(a, b, lower) && LessByMenuOrder(b, a, lower) == SqlLess(b, a, lower)
  }

  /** A line the menu can print, under this id. */
  function Under(externalId: string): Line { Line("", externalId, [], None, 1, 0, 0) }

  /** An id past int64 against one within it: only the wrapped number and then the text decide. */
  lemma HugeAgainstFitting(a: Line, b: Line, lower: char -> char)
    requires !FitsBigint(a.externalId) && SqlNumber(b.externalId).Some? && FitsBigint(b.externalId)
    ensures NumericId(a.externalId).Some? && NumericId(b.externalId) == SqlNumber(b.externalId)
    ensures SqlLess(b, a, lower) && !SqlLess(a, b, lower)
    ensures var w, n := NumericId(a.externalId).value, NumericId(b.externalId).value;
            BothAgree(a, b, lower) <==> w > n || (w == n && StringLess(b.externalId, a.externalId))
  {
    hide NumberOf, Accumulated, StringLess, Lowered;
    AccumulatedIsWrapped(a.externalId);
    AccumulatedIsWrapped(b.externalId);
    StringLessTotal(a.externalId, b.externalId);
    if StringLess(a.externalId, b.externalId) && StringLess(b.externalId, a.externalId) {
      StringLessTransitive(a.externalId, b.externalId, a.externalId);
      StringLessIrreflexive(a.externalId);
    }
  }

  /** So the numbers that wrap below zero sort before all others. */
  lemma HugeIdsSortFirst(a: Line, b: Line, lower: char -> char)
    requires SqlNumber(a.externalId).Some? && TWO_63 <= SqlNumber(a.externalId).value < 2 * TWO_63
    requires SqlNumber(b.externalId).Some? && FitsBigint(b.externalId)
    ensures LessByMenuOrder(a, b, lower) && SqlLess(b, a, lower)
  {
    hide NumberOf, Accumulated, StringLess, Lowered;
    AccumulatedIsWrapped(a.externalId);
    AccumulatedIsWrapped(b.externalId);
  }

  lemma FittingDecimal(n: nat)
    requires n < TWO_63
    ensures SqlNumber(Decimal(n)) == Some(n) && FitsBigint(Decimal(n))
  {
    NumberOfDecimal(n);
  }

  /** Where a huge id disagrees with some id that fits. */
  lemma HugeDisagrees(a: Line, lower: char -> char) returns (b: Line)
    requires !FitsBigint(a.externalId) && !WrapsToTheTop(a.externalId)
    ensures FitsBigint(b.externalId) && !BothAgree(a, b, lower)
  {
    hide NumberOf, Accumulated, StringLess, Decimal, LessByMenuOrder, SqlLess, BothAgree;
    var w := Accumulated(a.externalId);
    AccumulatedIsWrapped(a.externalId);
    var n: nat := if w == TWO_63 - 1 then w else if w < 0 then 0 else w + 1;
    b := Under(Decimal(n));
    FittingDecimal(n);
    HugeAgainstFitting(a, b, lower);
  }

  /** The one kind of huge id that every id which fits is still before. */
  lemma TopAgrees(a: Line, b: Line, lower: char -> char)
    requires !FitsBigint(a.externalId) && WrapsToTheTop(a.externalId)
    requires FitsBigint(b.externalId)
    ensures BothAgree(a, b, lower)
  {
    hide NumberOf, Accumulated, StringLess, Decimal, Lowered;
    if SqlNumber(b.externalId).Some? {
      HugeAgainstFitting(a, b, lower);
      if NumberOf(b.externalId) == TWO_63 - 1 {
        DecimalComesLast(b.externalId);
        if b.externalId != Decimal(TWO_63 - 1) {
          StringLessTransitive(b.externalId, Decimal(TWO_63 - 1), a.externalId);
        }
      }
    }
  }

  /**
   * The summary sorts a line among all the menu can print as the menu does if and only if its id
   * fits a bigint, or wraps to the very top of int64 with a text that is greater still.
   */
  lemma OrdersAgreeIff(a: Line, lower: char -> char)
    ensures (forall b: Line | FitsBigint(b.externalId) :: BothAgree(a, b, lower))
            <==> FitsBigint(a.externalId) || WrapsToTheTop(a.externalId)
  {
    hide LessByMenuOrder, SqlLess, FitsBigint, WrapsToTheTop, BothAgree;
    if FitsBigint(a.externalId) {
      forall b: Line | FitsBigint(b.externalId) ensures BothAgree(a, b, lower) { FittingAgree(a, b, lower); }
    } else if WrapsToTheTop(a.externalId) {
      forall b: Line | FitsBigint(b.externalId) ensures BothAgree(a, b, lower) { TopAgrees(a, b, lower); }
    } else {
      var b := HugeDisagrees(a, lower);
    }
  }

  lemma FittingAgree(a: Line, b: Line, lower: char -> char)
    requires FitsBigint(a.externalId) && FitsBigint(b.externalId)
    ensures BothAgree(a, b, lower)
  {
    hide LessByMenuOrder, SqlLess, FitsBigint;
    SummaryOrderIsMenuOrder(a, b, lower);
    SummaryOrderIsMenuOrder(b, a, lower);
  }

  /** A numeral starts with the numeral of what is left when k digits are cut off. */
  lemma {:induction false} LeadingDigits(n: nat, q: nat, k: nat)
    requires Shifted(n, k) == q > 0
    ensures |Decimal(q)| <= |Decimal(n)| && Decimal(n)[..|Decimal(q)|] == Decimal(q)
  {
    if k > 0 {
      LeadingDigits(n / 10, q, k - 1);
      ShiftedIsLess(n / 10, k - 1);
      DecimalStep(n);
    }
    hide Decimal;
  }

  /** What is left of n when k digits are cut off. */
  function Shifted(n: nat, k: nat): nat {
    if k == 0 then n else Shifted(n / 10, k - 1)
  }

  lemma {:induction false} ShiftedIsLess(n: nat, k: nat)
    ensures Shifted(n, k) <= n
  {
    if k > 0 { ShiftedIsLess(n / 10, k - 1); }
  }

  lemma DecimalStep(n: nat)
    requires n >= 10
    ensures |Decimal(n)| == |Decimal(n / 10)| + 1 && Decimal(n)[..|Decimal(n / 10)|] == Decimal(n / 10)
  {}

  lemma CutFour(n: nat, k: nat)
    ensures Shifted(n, k + 4) == Shifted(n / 10_000, k)
  {
    assert n / 10 / 10 / 10 / 10 == n / 10_000;
    assert Shifted(n, k + 4) == Shifted(n / 10, k + 3);
    assert Shifted(n / 10, k + 3) == Shifted(n / 10 / 10, k + 2);
    assert Shifted(n / 10 / 10, k + 2) == Shifted(n / 10 / 10 / 10, k + 1);
  }

  lemma TopDigits(low: nat, high: nat)
    requires low == TWO_63 - 1 && high == low + 50 * (2 * TWO_63)
    ensures Shifted(low, 17) == 92 && Shifted(high, 19) == 93
  {
    assert Shifted(922, 1) == 92 && Shifted(93156, 3) == 93;
    hide Shifted;
    CutFour(low, 13);
    CutFour(922_337_203_685_477, 9);
    CutFour(92_233_720_368, 5);
    CutFour(9_223_372, 1);
    CutFour(high, 15);
    CutFour(93_156_057_572_233_235, 11);
    CutFour(9_315_605_757_223, 7);
    CutFour(931_560_575, 3);
  }

  /** Such an id there is, of 21 digits: 2^63 - 1 and fifty times 2^64 more. */
  lemma SomeIdWrapsToTheTop(n: nat)
    requires n == TWO_63 - 1 + 50 * (2 * TWO_63)
    ensures !FitsBigint(Decimal(n)) && WrapsToTheTop(Decimal(n))
  {
    hide Decimal, NumberOf, Accumulated, StringLess, Shifted;
    var low: nat :| low == TWO_63 - 1;
    NumberOfDecimal(n);
    AccumulatedIsWrapped(Decimal(n));
    TopDigits(low, n);
    FromTheFront(low, n);
    WrapShift(low, -50);
  }

  lemma FromTheFront(low: nat, high: nat)
    requires Shifted(low, 17) == 92 && Shifted(high, 19) == 93
    ensures StringLess(Decimal(low), Decimal(high))
  {
    assert Decimal(92) == "92" && Decimal(93) == "93";
    LeadingDigits(low, 92, 17);
    LeadingDigits(high, 93, 19);
    hide Decimal, Shifted;
    var s, t := Decimal(low), Decimal(high);
    assert s[0] == s[..2][0] && s[1] == s[..2][1] && t[0] == t[..2][0] && t[1] == t[..2][1];
    assert s[1..][0] == '2' && t[1..][0] == '3';
  }
}
