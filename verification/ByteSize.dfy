/**
 * Byte sizes in the configuration (internal/config/bytesize.go). The parser goes through float64, so
 * what is printed reads back exactly when float64 can hold it.
 */
module ByteSize {
  import opened Prelude
  import opened Text
  import opened Sums
  import opened MenuOrder
  import opened Float64
  import Duration

  const LIMIT := TWO_63

  datatype Unit = Unit(suffix: string, factor: nat)

  /** The suffixes in the order they are tried. */
  const BYTE_UNITS := [
    Unit("KIB", 1024), Unit("MIB", 1024 * 1024), Unit("GIB", 1024 * 1024 * 1024),
    Unit("KB", 1000), Unit("MB", 1000 * 1000), Unit("GB", 1000 * 1000 * 1000),
    Unit("K", 1000), Unit("M", 1000 * 1000), Unit("G", 1000 * 1000 * 1000),
    Unit("B", 1)]

  const BINARY_UNITS := [
    Unit("GiB", 1024 * 1024 * 1024), Unit("MiB", 1024 * 1024), Unit("KiB", 1024)]

  /** strings.ToUpper where units and names need it. */
  ghost predicate Uppercases(upper: char -> char) {
    && (forall c | IsDigit(c) || 'A' <= c <= 'Z' || c in "+-_" :: upper(c) == c)
    && (forall c | 'a' <= c <= 'z' :: upper(c) == c - ('a' - 'A'))
  }

  datatype SizeError = Empty | NoNumber | NotANumber | Negative

  /** A float64: a real number, or one of the values that are none. */
  datatype Float = Finite(x: real) | Infinite(negative: bool) | Nan {

    /** x < 0, which NaN is not. */
    predicate IsNegative() {
      match this
      case Finite(x) => x < 0.0
      case Infinite(negative) => negative
      case Nan => false
    }
  }

  function Whole(n: int): Float { Finite(n as real) }

  /** ParseFloat's names for what is no number, in capitals. */
  const INFINITIES: seq<string> := ["INF", "+INF", "INFINITY", "+INFINITY"]
  const NEGATIVE_INFINITIES: seq<string> := ["-INF", "-INFINITY"]
  const NOT_A_NUMBER := "NAN"

  /**
   * What the platform brings: strconv.ParseFloat, the float64 product, int64's conversion of values out
   * of its range, which Go leaves to the implementation, and strings.ToUpper on a rune.
   */
  datatype Platform = Platform(
    parseFloat: string -> Option<Float>, times: (Float, nat) -> Float, outOfRange: Float -> int, upper: char -> char) {

    /** IEEE 754 on whole numbers, and the names ParseFloat knows for what is no number. */
    ghost predicate Lawful() {
      && (forall digits | digits != "" && AllDigits(digits) && NumberOf(digits) < 2 * LIMIT ::
            && parseFloat(digits) == Some(Whole(Rounded(NumberOf(digits))))
            && (NumberOf(digits) > 0 ==> parseFloat("-" + digits) == Some(Whole(0 - Rounded(NumberOf(digits))))))
      && (forall n: nat, f: nat | f > 0 :: times(Whole(n), f) == Whole(Rounded(n * f)))
      && (forall w | w in INFINITIES :: parseFloat(w) == Some(Infinite(false)))
      && (forall w | w in NEGATIVE_INFINITIES :: parseFloat(w) == Some(Infinite(true)))
      && parseFloat(NOT_A_NUMBER) == Some(Nan)
      && (forall f: nat | f > 0 :: times(Infinite(false), f) == Infinite(false) && times(Nan, f) == Nan)
      && Uppercases(upper)
    }

    /** int64(x). */
    function ToInt64(v: Float): int {
      if v.Finite? && (-LIMIT) as real <= v.x < LIMIT as real then
        if v.x < 0.0 then -((-v.x).Floor) else v.x.Floor
      else outOfRange(v)
    }
  }

  predicate HasSuffix(s: string, suffix: string) {
    |suffix| <= |s| && s[|s| - |suffix|..] == suffix
  }

  /** The number in front of the first suffix that fits, and its factor. */
  function SplitUnit(upper: string, units: seq<Unit>, i: nat): (string, nat)
    requires i <= |units|
    decreases |units| - i
  {
    if i == |units| then (upper, 1)
    else if HasSuffix(upper, units[i].suffix) then
      (TrimSpace(upper[..|upper| - |units[i].suffix|]), units[i].factor)
    else SplitUnit(upper, units, i + 1)
  }

  function ParsedSize(s: string, p: Platform): Result<int, SizeError> {
    if TrimSpace(s) == "" then Err(Empty) else
    var (numeric, factor) := SplitUnit(Mapped(TrimSpace(s), p.upper), BYTE_UNITS, 0);
    if numeric == "" then Err(NoNumber) else
    var value := p.parseFloat(numeric);
    if value.None? then Err(NotANumber)
    else if value.value.IsNegative() then Err(Negative)
    else Ok(p.ToInt64(p.times(value.value, factor)))
  }

  method ParseByteSize(s: string, p: Platform) returns (r: Result<int, SizeError>)
    ensures r == ParsedSize(s, p)
  {
    var trimmed := TrimSpace(s);
    if trimmed == "" {
      return Err(Empty);
    }
    var upper := Mapped(trimmed, p.upper);
    var factor, numeric := 1, upper;
    for i := 0 to |BYTE_UNITS|
      invariant factor == 1 && numeric == upper
      invariant SplitUnit(upper, BYTE_UNITS, 0) == SplitUnit(upper, BYTE_UNITS, i)
    {
      var unit := BYTE_UNITS[i];
      if HasSuffix(upper, unit.suffix) {
        factor := unit.factor;
        numeric := TrimSpace(upper[..|upper| - |unit.suffix|]);
        break;
      }
    }
    if numeric == "" {
      return Err(NoNumber);
    }
    var value := p.parseFloat(numeric);
    if value.None? {
      return Err(NotANumber);
    }
    if value.value.IsNegative() {
      return Err(Negative);
    }
    return Ok(p.ToInt64(p.times(value.value, factor)));
  }

  function FormattedSize(n: int, i: nat): string
    requires i <= |BINARY_UNITS|
    decreases |BINARY_UNITS| - i
  {
    if n < 0 || i == |BINARY_UNITS| then FormatInt(n)
    else if n >= BINARY_UNITS[i].factor && n % BINARY_UNITS[i].factor == 0 then
      FormatInt(n / BINARY_UNITS[i].factor) + BINARY_UNITS[i].suffix
    else FormattedSize(n, i + 1)
  }

  method FormatByteSize(n: int) returns (s: string)
    requires -LIMIT <= n < LIMIT
    ensures s == FormattedSize(n, 0)
  {
    if n < 0 {
      return FormatInt(n);
    }
    for i := 0 to |BINARY_UNITS|
      invariant FormattedSize(n, 0) == FormattedSize(n, i)
    {
      var unit := BINARY_UNITS[i];
      if n >= unit.factor && n % unit.factor == 0 {
        return FormatInt(n / unit.factor) + unit.suffix;
      }
    }
    return FormatInt(n);
  }

  // ----- reading back what was printed -----

  lemma OtherEnding(s: string, suffix: string)
    requires s != "" && suffix != "" && s[|s| - 1] != suffix[|suffix| - 1]
    ensures !HasSuffix(s, suffix)
  {
    assert |suffix| <= |s| ==> s[|s| - |suffix|..][|suffix| - 1] == s[|s| - 1];
  }

  lemma {:induction false} FirstThatFits(upper: string, units: seq<Unit>, i: nat, k: nat)
    requires i <= k <= |units| && forall j | i <= j < k :: !HasSuffix(upper, units[j].suffix)
    ensures SplitUnit(upper, units, i) == SplitUnit(upper, units, k)
    decreases k - i
  {
    if i < k { FirstThatFits(upper, units, i + 1, k); }
  }

  predicate Spelled(unit: Unit) { unit.suffix != "" && !IsDigit(unit.suffix[|unit.suffix| - 1]) }

  lemma NoneFits(text: string, units: seq<Unit>)
    requires text != "" && IsDigit(text[|text| - 1]) && forall u | u in units :: Spelled(u)
    ensures SplitUnit(text, units, 0) == (text, 1)
  {
    forall j | 0 <= j < |units|
      ensures !HasSuffix(text, units[j].suffix)
    {
      assert Spelled(units[j]);
      OtherEnding(text, units[j].suffix);
    }
    FirstThatFits(text, units, 0, |units|);
  }

  lemma SplitAtUnit(upper: string, units: seq<Unit>, k: nat)
    requires k < |units| && HasSuffix(upper, units[k].suffix)
    ensures SplitUnit(upper, units, k) == (TrimSpace(upper[..|upper| - |units[k].suffix|]), units[k].factor)
  {}

  /** A unit is found behind digits when those tried before it start otherwise. */
  lemma UnitIsFound(digits: string, shown: string, units: seq<Unit>, k: nat, upper: char -> char)
    requires Uppercases(upper) && digits != "" && AllDigits(digits) && |shown| == 3 && !IsSpace(shown[2])
    requires k < |units| && units[k].suffix == Mapped(shown, upper)
    requires forall j | 0 <= j < k :: |units[j].suffix| == 3 && units[j].suffix[0] != units[k].suffix[0]
    ensures TrimSpace(digits + shown) == digits + shown
    ensures SplitUnit(Mapped(digits + shown, upper), units, 0) == (digits, units[k].factor)
  {
    hide TrimSpace, SplitUnit;
    var s := digits + shown;
    assert forall j | 0 <= j < |digits| :: s[j] == digits[j] && digits[j] in digits;
    TrimIdle(s);
    TrimIdle(digits);
    var t := Mapped(s, upper);
    assert t == digits + units[k].suffix;
    assert t[|digits|] == units[k].suffix[0];
    assert t[|digits|..] == units[k].suffix && t[..|digits|] == digits;
    FirstThatFits(t, units, 0, k);
    SplitAtUnit(t, units, k);
  }

  /** KiB, MiB and GiB come first in the parser's table, in that order. */
  lemma BinaryUnitIsFound(digits: string, i: nat, upper: char -> char)
    requires Uppercases(upper) && digits != "" && AllDigits(digits) && i < |BINARY_UNITS|
    ensures var s := digits + BINARY_UNITS[i].suffix;
            TrimSpace(s) == s && SplitUnit(Mapped(s, upper), BYTE_UNITS, 0) == (digits, BINARY_UNITS[i].factor)
  {
    hide TrimSpace, SplitUnit, IsDigit;
    if i == 0 {
      assert Mapped("GiB", upper) == "GIB";
      UnitIsFound(digits, "GiB", BYTE_UNITS, 2, upper);
    } else if i == 1 {
      assert Mapped("MiB", upper) == "MIB";
      UnitIsFound(digits, "MiB", BYTE_UNITS, 1, upper);
    } else {
      assert Mapped("KiB", upper) == "KIB";
      UnitIsFound(digits, "KiB", BYTE_UNITS, 0, upper);
    }
  }

  lemma UnitsAreSpelled()
    ensures forall u | u in BYTE_UNITS :: Spelled(u)
  {}

  lemma DigitsAreTheirOwn(text: string, upper: char -> char)
    requires Uppercases(upper) && text != "" && forall c | c in text :: IsDigit(c) || c == '-'
    ensures TrimSpace(text) == text && Mapped(text, upper) == text
  {
    hide TrimSpace;
    assert forall i | 0 <= i < |text| :: text[i] in text;
    TrimIdle(text);
  }

  lemma DigitsHaveNoUnit(text: string, upper: char -> char)
    requires Uppercases(upper) && text != "" && IsDigit(text[|text| - 1])
    requires forall c | c in text :: IsDigit(c) || c == '-'
    ensures TrimSpace(text) == text && SplitUnit(Mapped(text, upper), BYTE_UNITS, 0) == (text, 1)
  {
    hide TrimSpace, SplitUnit, Spelled;
    DigitsAreTheirOwn(text, upper);
    UnitsAreSpelled();
    NoneFits(text, BYTE_UNITS);
  }

  lemma ProductGrows(a: nat, b: nat, c: nat, d: nat)
    requires a >= c && b >= d
    ensures a * b >= c * d
  {
    assert a * b >= c * b >= c * d;
  }

  lemma KibibytesAreExact(n: nat, m: nat, e: nat)
    requires n < LIMIT && n == m * Pow2(e) && e >= 10
    ensures Representable(m) && Representable(n)
  {
    assert Pow2(10) == 1024;
    Pow2Grows(10, e);
    if m > TWO_53 { ProductGrows(m, Pow2(e), TWO_53, 1024); }
    SmallIsRepresentable(m);
    ScalingKeeps(m, e);
  }

  lemma FactorIsAPower(i: nat)
    requires i < |BINARY_UNITS|
    ensures BINARY_UNITS[i].factor == Pow2(30 - 10 * i)
  {
    assert Pow2(10) == 1024 && Pow2(20) == 1024 * Pow2(10) && Pow2(30) == 1024 * Pow2(20);
  }

  /** A size in a binary unit reads back exactly. */
  lemma BinarySizesReadBack(m: nat, i: nat, p: Platform)
    requires p.Lawful() && i < |BINARY_UNITS| && 0 < m * BINARY_UNITS[i].factor < LIMIT
    ensures ParsedSize(Decimal(m) + BINARY_UNITS[i].suffix, p) == Ok(m * BINARY_UNITS[i].factor)
    ensures Representable(m * BINARY_UNITS[i].factor)
  {
    hide Platform.Lawful, Uppercases, TrimSpace, SplitUnit, Representable, Rounded, Decimal, Pow2;
    Capitals(p);
    FactorIsAPower(i);
    var f := BINARY_UNITS[i].factor;
    var n := m * f;
    KibibytesAreExact(n, m, 30 - 10 * i);
    RoundingKeepsIff(m);
    RoundingKeepsIff(n);
    NumberOfDecimal(m);
    BinaryUnitIsFound(Decimal(m), i, p.upper);
    WholeProduct(m, f, p);
  }

  lemma WholeProduct(m: nat, f: nat, p: Platform)
    requires p.Lawful() && f > 0 && Rounded(m) == m && m < 2 * LIMIT
    ensures p.parseFloat(Decimal(m)) == Some(Whole(m))
    ensures Rounded(m * f) < LIMIT ==> p.ToInt64(p.times(Whole(m), f)) == Rounded(m * f)
  {
    hide Rounded, Decimal;
    NumberOfDecimal(m);
  }

  /** Bytes in a decimal unit; zero for what is none. */
  function DecimalFactor(unit: string): nat {
    if unit == "B" then 1
    else if unit == "K" || unit == "KB" then 1000
    else if unit == "M" || unit == "MB" then 1000 * 1000
    else if unit == "G" || unit == "GB" then 1000 * 1000 * 1000
    else 0
  }

  lemma DecimalUnitAt(unit: string) returns (k: nat)
    requires DecimalFactor(unit) > 0
    ensures k < |BYTE_UNITS| && BYTE_UNITS[k] == Unit(unit, DecimalFactor(unit))
    ensures 1 <= |unit| <= 2 && forall c | c in unit :: 'A' <= c <= 'Z' && !IsSpace(c)
    ensures forall j | 0 <= j < k ::
      var other := BYTE_UNITS[j].suffix;
      || other == "" || other[|other| - 1] != unit[|unit| - 1]
      || (|other| > 1 && !IsDigit(other[|other| - 2]) && (|unit| == 1 || unit[0] != other[|other| - 2]))
    ensures forall j | 0 <= j < k :: BYTE_UNITS[j].suffix != ""
  {
    k := if unit == "KB" then 3 else if unit == "MB" then 4 else if unit == "GB" then 5
         else if unit == "K" then 6 else if unit == "M" then 7 else if unit == "G" then 8 else 9;
  }

  lemma NoSuffix(digits: string, unit: string, other: string)
    requires digits != "" && AllDigits(digits) && 1 <= |unit| <= 2 && other != ""
    requires || other[|other| - 1] != unit[|unit| - 1]
             || (|other| > 1 && !IsDigit(other[|other| - 2]) && (|unit| == 1 || unit[0] != other[|other| - 2]))
    ensures !HasSuffix(digits + unit, other)
  {
    var s := digits + unit;
    assert digits[|digits| - 1] in digits;
    assert s[|s| - 1] == unit[|unit| - 1];
    assert s[|s| - 2] == if |unit| == 2 then unit[0] else digits[|digits| - 1];
    assert |other| <= |s| ==> s[|s| - |other|..][|other| - 1] == s[|s| - 1];
    assert 1 < |other| <= |s| ==> s[|s| - |other|..][|other| - 2] == s[|s| - 2];
  }

  lemma DecimalUnitIsFound(digits: string, unit: string, upper: char -> char)
    requires Uppercases(upper) && digits != "" && AllDigits(digits) && DecimalFactor(unit) > 0
    ensures TrimSpace(digits + unit) == digits + unit
    ensures SplitUnit(Mapped(digits + unit, upper), BYTE_UNITS, 0) == (digits, DecimalFactor(unit))
  {
    hide TrimSpace, SplitUnit, HasSuffix, DecimalFactor;
    var k := DecimalUnitAt(unit);
    var s := digits + unit;
    assert forall i | 0 <= i < |digits| :: digits[i] in digits;
    assert forall i | 0 <= i < |unit| :: unit[i] in unit;
    assert forall i | 0 <= i < |s| :: s[i] == if i < |digits| then digits[i] else unit[i - |digits|];
    TrimIdle(s);
    TrimIdle(digits);
    assert Mapped(s, upper) == s;
    forall j | 0 <= j < k ensures !HasSuffix(s, BYTE_UNITS[j].suffix) { NoSuffix(digits, unit, BYTE_UNITS[j].suffix); }
    FirstThatFits(s, BYTE_UNITS, 0, k);
    SuffixIsThere(digits, unit);
    SplitAtUnit(s, BYTE_UNITS, k);
    assert s[..|s| - |unit|] == digits;
  }

  lemma SuffixIsThere(digits: string, unit: string)
    ensures HasSuffix(digits + unit, unit)
  {}

  /** A size in a decimal unit, a thousand, a million or a thousand million bytes of it, is read exactly up to 2^53. */
  lemma DecimalSizesAreRead(m: nat, unit: string, p: Platform)
    requires p.Lawful() && DecimalFactor(unit) > 0 && m * DecimalFactor(unit) <= TWO_53
    ensures ParsedSize(Decimal(m) + unit, p) == Ok(m * DecimalFactor(unit))
  {
    hide Platform.Lawful, Uppercases, TrimSpace, SplitUnit, Representable, Rounded, Decimal, DecimalFactor;
    var f := DecimalFactor(unit);
    Capitals(p);
    MultiplesAreApart(f, m);
    ProductGrows(m, f, m, 1);
    SmallIsRepresentable(m);
    SmallIsRepresentable(m * f);
    RoundingKeepsIff(m);
    RoundingKeepsIff(m * f);
    NumberOfDecimal(m);
    DecimalUnitIsFound(Decimal(m), unit, p.upper);
    WholeProduct(m, f, p);
    NotNegative(m);
  }

  lemma NotNegative(m: nat)
    ensures !Whole(m).IsNegative()
  {}

  /** A plain count of bytes goes through float64 twice, the second time for nothing. */
  lemma PlainSizesAreRounded(n: nat, p: Platform)
    requires p.Lawful() && n < LIMIT
    ensures ParsedSize(Decimal(n), p) ==
      Ok(if Rounded(n) < LIMIT then Rounded(n) else p.outOfRange(Whole(Rounded(n))))
  {
    hide TrimSpace, SplitUnit, Rounded, Decimal;
    NumberOfDecimal(n);
    assert Decimal(n)[|Decimal(n)| - 1] in Decimal(n);
    DigitsHaveNoUnit(Decimal(n), p.upper);
    RoundingIsIdempotent(n);
    assert p.times(Whole(Rounded(n)), 1) == Whole(Rounded(Rounded(n) * 1));
  }

  /** The largest binary unit that divides n, or none. */
  lemma UnitChosen(n: nat) returns (i: nat)
    ensures i <= |BINARY_UNITS|
    ensures i == |BINARY_UNITS| ==> FormattedSize(n, 0) == Decimal(n)
    ensures i < |BINARY_UNITS| ==>
      var f := BINARY_UNITS[i].factor;
      n / f * f == n > 0 && FormattedSize(n, 0) == Decimal(n / f) + BINARY_UNITS[i].suffix
  {
    hide Decimal;
    i := if n >= 1024 * 1024 * 1024 && n % (1024 * 1024 * 1024) == 0 then 0
         else if n >= 1024 * 1024 && n % (1024 * 1024) == 0 then 1
         else if n >= 1024 && n % 1024 == 0 then 2 else 3;
    assert i > 0 ==> FormattedSize(n, 0) == FormattedSize(n, 1);
    assert i > 1 ==> FormattedSize(n, 1) == FormattedSize(n, 2);
  }

  /**
   * What is printed reads back exactly when float64 can hold it. The one other chance is a platform
   * that answers n itself when the rounding of n falls outside int64.
   */
  lemma PrintedSizesReadBackIff(n: nat, p: Platform)
    requires p.Lawful() && n < LIMIT
    ensures ParsedSize(FormattedSize(n, 0), p) == Ok(n) <==>
      Representable(n) || (Rounded(n) >= LIMIT && p.outOfRange(Whole(Rounded(n))) == n)
  {
    hide ParsedSize, FormattedSize, Representable, Rounded, Decimal;
    var i := UnitChosen(n);
    if i < |BINARY_UNITS| {
      BinarySizesReadBack(n / BINARY_UNITS[i].factor, i, p);
    } else {
      PlainSizesAreRounded(n, p);
      RoundingKeepsIff(n);
    }
  }

  /** So sizes up to 2^53 and every multiple of 1024 read back. */
  lemma PrintedSizesReadBack(n: nat, p: Platform)
    requires p.Lawful() && n < LIMIT && (n <= TWO_53 || n % 1024 == 0)
    ensures ParsedSize(FormattedSize(n, 0), p) == Ok(n)
  {
    hide ParsedSize, FormattedSize, Representable;
    if n <= TWO_53 {
      SmallIsRepresentable(n);
    } else {
      assert Pow2(10) == 1024;
      KibibytesAreExact(n, n / 1024, 10);
    }
    PrintedSizesReadBackIff(n, p);
  }

  lemma MinusIsRead(m: nat, p: Platform)
    requires p.Lawful() && 0 < m <= LIMIT
    ensures p.parseFloat("-" + Decimal(m)) == Some(Whole(0 - Rounded(m))) && Whole(0 - Rounded(m)).IsNegative()
  {
    hide Decimal, Rounded;
    NumberOfDecimal(m);
    RoundingStaysPositive(m);
    BelowZero(Rounded(m));
  }

  lemma MinusHasNoUnit(m: nat, upper: char -> char)
    requires Uppercases(upper)
    ensures var text := "-" + Decimal(m);
            TrimSpace(text) == text && SplitUnit(Mapped(text, upper), BYTE_UNITS, 0) == (text, 1)
  {
    hide TrimSpace, SplitUnit, Decimal;
    var digits := Decimal(m);
    var text := "-" + digits;
    assert text[|text| - 1] == digits[|digits| - 1] && digits[|digits| - 1] in digits;
    DigitsHaveNoUnit(text, upper);
  }

  lemma Capitals(p: Platform)
    requires p.Lawful()
    ensures Uppercases(p.upper)
  {}

  /** A negative size prints as a number the parser refuses. */
  lemma NegativeSizesAreRefused(n: int, p: Platform)
    requires p.Lawful() && -LIMIT <= n < 0
    ensures ParsedSize(FormattedSize(n, 0), p) == Err(Negative)
  {
    hide Platform.Lawful, TrimSpace, SplitUnit, Rounded, Decimal, Uppercases, Float.IsNegative;
    Capitals(p);
    MinusHasNoUnit(-n, p.upper);
    MinusIsRead(-n, p);
    assert FormattedSize(n, 0) == "-" + Decimal(-n);
  }

  lemma BelowZero(n: nat)
    requires n > 0
    ensures Whole(0 - n).IsNegative()
  {}

  predicate IsWord(text: string) {
    text in INFINITIES || text in NEGATIVE_INFINITIES || text == NOT_A_NUMBER
  }

  /** No unit ends as a word does that ParseFloat knows. */
  predicate UnlikeWords(unit: Unit) {
    unit.suffix != "" && unit.suffix[|unit.suffix| - 1] !in "FNY"
  }

  lemma UnitsAreUnlikeWords()
    ensures forall u | u in BYTE_UNITS :: UnlikeWords(u)
  {}

  lemma WordsEnd(word: string)
    requires IsWord(word)
    ensures word != "" && word[|word| - 1] in "FNY"
  {}

  lemma WordHasNoUnit(word: string)
    requires IsWord(word)
    ensures SplitUnit(word, BYTE_UNITS, 0) == (word, 1)
  {
    hide SplitUnit, HasSuffix, IsWord;
    WordsEnd(word);
    UnitsAreUnlikeWords();
    forall j | 0 <= j < |BYTE_UNITS|
      ensures !HasSuffix(word, BYTE_UNITS[j].suffix)
    {
      assert UnlikeWords(BYTE_UNITS[j]);
      OtherEnding(word, BYTE_UNITS[j].suffix);
    }
    FirstThatFits(word, BYTE_UNITS, 0, |BYTE_UNITS|);
    SplitAtEnd(word, BYTE_UNITS);
  }

  lemma SplitAtEnd(text: string, units: seq<Unit>)
    ensures SplitUnit(text, units, |units|) == (text, 1)
  {}

  /**
   * ParseFloat also reads words, in any capitals. Of these only the negative infinities are refused; the
   * others are taken for sizes, and which ones is up to the platform.
   */
  lemma WordsAreTakenForSizes(s: string, p: Platform)
    requires p.Lawful() && IsWord(Mapped(TrimSpace(s), p.upper))
    ensures
      var word := Mapped(TrimSpace(s), p.upper);
      ParsedSize(s, p) == if word in INFINITIES then Ok(p.outOfRange(Infinite(false)))
                          else if word in NEGATIVE_INFINITIES then Err(Negative)
                          else Ok(p.outOfRange(Nan))
  {
    hide TrimSpace, SplitUnit, IsWord, Uppercases;
    var word := Mapped(TrimSpace(s), p.upper);
    WordsEnd(word);
    WordHasNoUnit(word);
    WordsAreRead(word, p);
    hide Platform.Lawful;
  }

  lemma WordsAreRead(word: string, p: Platform)
    requires p.Lawful() && IsWord(word)
    ensures p.parseFloat(word) == Some(if word in INFINITIES then Infinite(false)
                                       else if word in NEGATIVE_INFINITIES then Infinite(true) else Nan)
    ensures p.times(Infinite(false), 1) == Infinite(false) && p.times(Nan, 1) == Nan
  {}

  /** Some of them, as they are mostly written. */
  lemma WordsInCapitals(upper: char -> char)
    requires Uppercases(upper)
    ensures Mapped("inf", upper) == "INF" && Mapped("+inf", upper) == "+INF" && Mapped("-inf", upper) == "-INF"
    ensures Mapped("Infinity", upper) == "INFINITY" && Mapped("NaN", upper) == "NAN"
  {}
}
