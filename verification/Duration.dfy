/**
 * Durations in the configuration (internal/config/duration.go): time.ParseDuration extended with days
 * and weeks, and the printer whose output must read back as what was printed.
 */
module Duration {
  import opened Prelude
  import opened Text
  import opened MenuOrder
  import opened Float64

  const SECOND := 1_000_000_000
  const MINUTE := 60 * SECOND
  const HOUR := 60 * MINUTE
  const HOURS_PER_DAY := 24
  const HOURS_PER_WEEK := 168

  /**
   * The float64 arithmetic of a fraction. hours is ParseFloat, the product with the hours of a day or
   * a week, and FormatFloat; nanos is what a component's fraction digits come to in its unit.
   */
  datatype Floats = Floats(hours: (string, nat) -> Option<string>, nanos: (string, nat) -> nat) {

    /** float64 is exact up to 2^53, and past it rounding never comes back below. */
    ghost predicate Lawful() {
      forall digits, per | digits != "" && AllDigits(digits) && per in {HOURS_PER_DAY, HOURS_PER_WEEK} ::
        var exact := NumberOf(digits) * per;
        var text := hours(digits, per);
        if exact <= TWO_53 then text == Some(Decimal(exact))
        else text.Some? ==> text.value != "" && AllDigits(text.value) && NumberOf(text.value) >= TWO_53
    }
  }

  // ----- scanning -----

  predicate Numeric(c: char) { IsDigit(c) || c == '.' }

  function NumericRun(s: string): (n: nat)
    ensures n <= |s| && (forall i | 0 <= i < n :: Numeric(s[i])) && (n < |s| ==> !Numeric(s[n]))
  {
    if s != "" && Numeric(s[0]) then 1 + NumericRun(s[1..]) else 0
  }

  function UnitRun(s: string): (n: nat)
    ensures n <= |s| && (forall i | 0 <= i < n :: !Numeric(s[i])) && (n < |s| ==> Numeric(s[n]))
  {
    if s != "" && !Numeric(s[0]) then 1 + UnitRun(s[1..]) else 0
  }

  lemma {:induction false} RunIs(s: string, n: nat)
    requires n <= |s| && (forall i | 0 <= i < n :: Numeric(s[i])) && (n < |s| ==> !Numeric(s[n]))
    ensures NumericRun(s) == n
  {
    if n > 0 { RunIs(s[1..], n - 1); }
  }

  lemma {:induction false} UnitIs(s: string, n: nat)
    requires n <= |s| && (forall i | 0 <= i < n :: !Numeric(s[i])) && (n < |s| ==> Numeric(s[n]))
    ensures UnitRun(s) == n
  {
    if n > 0 { UnitIs(s[1..], n - 1); }
  }

  predicate Signed(s: string) { s != "" && s[0] in "+-" }

  // ----- days and weeks -----

  /** One component rewritten: days and weeks become hours. */
  function Component(number: string, unit: string, floats: Floats): Option<string> {
    if unit == "d" || unit == "w" then
      var hours := floats.hours(number, if unit == "w" then HOURS_PER_WEEK else HOURS_PER_DAY);
      if hours.None? then None else Some(hours.value + "h")
    else Some(number + unit)
  }

  function Then(first: Option<string>, rest: Option<string>): Option<string> {
    if first.None? || rest.None? then None else Some(first.value + rest.value)
  }

  lemma ThenIsAssociative(a: Option<string>, b: Option<string>, c: Option<string>)
    ensures Then(Then(a, b), c) == Then(a, Then(b, c)) && Then(Some(""), c) == c
  {
    if a.Some? && b.Some? && c.Some? { assert (a.value + b.value) + c.value == a.value + (b.value + c.value); }
    if c.Some? { assert "" + c.value == c.value; }
  }

  function ExpandedFrom(s: string, floats: Floats): Option<string>
    decreases |s|
  {
    var n := NumericRun(s);
    if n == 0 then Some(s) else
    var end := n + UnitRun(s[n..]);
    Then(Component(s[..n], s[n..end], floats), ExpandedFrom(s[end..], floats))
  }

  function Expanded(s: string, floats: Floats): Option<string> {
    if Signed(s) then Then(Some(s[..1]), ExpandedFrom(s[1..], floats)) else ExpandedFrom(s, floats)
  }

  /** The index after the number that starts at i. */
  method NumberEnd(s: string, i: nat) returns (j: nat)
    requires i <= |s|
    ensures i <= j <= |s| && j - i == NumericRun(s[i..])
  {
    j := i;
    while j < |s| && (IsDigit(s[j]) || s[j] == '.')
      invariant i <= j <= |s|
      invariant forall k | i <= k < j :: Numeric(s[k])
    {
      j := j + 1;
    }
    RunIs(s[i..], j - i);
  }

  /** The index after the unit that starts at i. */
  method UnitEnd(s: string, i: nat) returns (j: nat)
    requires i <= |s|
    ensures i <= j <= |s| && j - i == UnitRun(s[i..])
  {
    j := i;
    while j < |s| && !IsDigit(s[j]) && s[j] != '.'
      invariant i <= j <= |s|
      invariant forall k | i <= k < j :: !Numeric(s[k])
    {
      j := j + 1;
    }
    UnitIs(s[i..], j - i);
  }

  lemma ExpandUnfolds(t: string, n: nat, u: nat, floats: Floats)
    requires 0 < n == NumericRun(t) && u == UnitRun(t[n..])
    ensures ExpandedFrom(t, floats) ==
      Then(Component(t[..n], t[n..n + u], floats), ExpandedFrom(t[n + u..], floats))
  {
    hide NumericRun, UnitRun, Component, Then;
  }

  /** One turn of the loop: a number from i to j, its unit from j to k. */
  lemma OneComponent(s: string, i: nat, j: nat, k: nat, floats: Floats)
    requires i < j <= k <= |s| && j - i == NumericRun(s[i..]) && k - j == UnitRun(s[j..])
    ensures ExpandedFrom(s[i..], floats) ==
      Then(Component(s[i..j], s[j..k], floats), ExpandedFrom(s[k..], floats))
  {
    hide ExpandedFrom, NumericRun, UnitRun, Component, Then;
    assert s[i..][j - i..] == s[j..] && s[i..][k - i..] == s[k..];
    assert s[i..][..j - i] == s[i..j] && s[i..][j - i..k - i] == s[j..k];
    ExpandUnfolds(s[i..], j - i, k - j, floats);
  }

  lemma NoDigitsInNothing()
    ensures NumericRun("") == 0
  {}

  lemma NoneIsNone(out: Option<string>, rest: Option<string>)
    ensures Then(out, Then(None, rest)) == None
  {}

  lemma Written(out: string, first: Option<string>, rest: Option<string>, next: string)
    requires first.Some? && next == out + first.value
    ensures Then(Some(next), rest) == Then(Some(out), Then(first, rest))
  {
    ThenIsAssociative(Some(out), first, rest);
  }

  /** Where the loop starts: the sign is written, the rest to do. */
  lemma AfterTheSign(s: string, i: nat, floats: Floats)
    requires i == if Signed(s) then 1 else 0
    ensures i <= |s| && Expanded(s, floats) == Then(Some(s[..i]), ExpandedFrom(s[i..], floats))
  {
    assert s[..0] == "" && s[0..] == s;
    ThenIsAssociative(None, None, ExpandedFrom(s, floats));
  }

  /** Where it may stop: what is left goes out as it is. */
  lemma NothingToExpand(out: string, left: string, floats: Floats)
    requires NumericRun(left) == 0
    ensures Then(Some(out), ExpandedFrom(left, floats)) == Some(out + left)
  {}

  method ExpandDayAndWeekUnits(s: string, floats: Floats) returns (r: Option<string>)
    ensures r == Expanded(s, floats)
  {
    hide ExpandedFrom, Expanded, Then, NumericRun, UnitRun;
    NoDigitsInNothing();
    var out := "";
    var i := 0;
    if i < |s| && (s[i] == '+' || s[i] == '-') {
      out := out + [s[i]];
      i := i + 1;
    }
    assert out == s[..i];
    AfterTheSign(s, i, floats);
    while i < |s|
      invariant i <= |s|
      invariant Expanded(s, floats) == Then(Some(out), ExpandedFrom(s[i..], floats))
    {
      var start := i;
      i := NumberEnd(s, start);
      if i == start {
        NothingToExpand(out, s[i..], floats);
        return Some(out + s[i..]);
      }
      var number := s[start..i];
      var unitStart := i;
      i := UnitEnd(s, unitStart);
      var unit := s[unitStart..i];
      OneComponent(s, start, unitStart, i, floats);
      ghost var written := out;
      if unit == "d" || unit == "w" {
        var hours := floats.hours(number, if unit == "w" then HOURS_PER_WEEK else HOURS_PER_DAY);
        if hours.None? {
          NoneIsNone(Some(out), ExpandedFrom(s[i..], floats));
          return None;
        }
        assert out + (hours.value + "h") == out + hours.value + "h";
        out := out + hours.value;
        out := out + "h";
      } else {
        assert out + (number + unit) == out + number + unit;
        out := out + number;
        out := out + unit;
      }
      Written(written, Component(number, unit, floats), ExpandedFrom(s[i..], floats), out);
    }
    assert s[i..] == "" && out + s[i..] == out;
    NothingToExpand(out, s[i..], floats);
    r := Some(out);
  }

  // ----- time.ParseDuration -----

  const LIMIT := TWO_63

  function StdSize(unit: string): nat {
    match unit
    case "ns" => 1
    case "us" => 1_000
    case "\U{00B5}s" => 1_000
    case "\U{03BC}s" => 1_000
    case "ms" => 1_000_000
    case "s" => SECOND
    case "m" => MINUTE
    case "h" => HOUR
    case _ => 0
  }

  function Product(count: nat, size: nat): nat { count * size }

  predicate Overflows(count: nat, size: nat)
    requires size > 0
  {
    count > LIMIT / size
  }

  /** The nanoseconds of the components, added to those before; None is an error. */
  function StdSum(s: string, before: nat, floats: Floats): (r: Option<nat>)
    requires before <= LIMIT
    ensures r.Some? ==> r.value <= LIMIT
    decreases |s|
  {
    if s == "" then Some(before) else
    var n := NumericRun(s);
    if n == 0 then None else
    var text := s[..n];
    var whole := WholePart(text);
    var fraction := text[|whole|..];
    if |fraction| > 0 && '.' in fraction[1..] then None
    else if whole == "" && |fraction| <= 1 then None
    else if NumberOf(whole) > LIMIT then None
    else
      var end := n + UnitRun(s[n..]);
      var size := StdSize(s[n..end]);
      if size == 0 || Overflows(NumberOf(whole), size) then None
      else
        var more: nat := if |fraction| > 1 then floats.nanos(fraction[1..], size) else 0;
        var d := before + Product(NumberOf(whole), size) + more;
        if d > LIMIT then None else StdSum(s[end..], d, floats)
  }

  /** The digits before a point. */
  function WholePart(s: string): (w: string)
    ensures |w| <= |s| && w == s[..|w|] && AllDigits(w) && (|w| < |s| ==> !IsDigit(s[|w|]))
  {
    if s != "" && IsDigit(s[0]) then [s[0]] + WholePart(s[1..]) else ""
  }

  function StdParse(s: string, floats: Floats): Option<int> {
    var neg := s != "" && s[0] == '-';
    var rest := if Signed(s) then s[1..] else s;
    if rest == "0" then Some(0)
    else if rest == "" then None
    else
      var d := StdSum(rest, 0, floats);
      if d.None? then None
      else if !neg && d.value > LIMIT - 1 then None
      else
        var amount: int := d.value;
        Some(if neg then -amount else amount)
  }

  method ParseDuration(s: string, floats: Floats) returns (r: Option<int>)
    ensures r == Parsed(s, floats)
  {
    var trimmed := TrimSpace(s);
    if trimmed == "" {
      return None;
    }
    var normalised := ExpandDayAndWeekUnits(trimmed, floats);
    if normalised.None? {
      return None;
    }
    r := StdParse(normalised.value, floats);
  }

  function Parsed(s: string, floats: Floats): Option<int> {
    if TrimSpace(s) == "" then None else
    var normalised := Expanded(TrimSpace(s), floats);
    if normalised.None? then None else StdParse(normalised.value, floats)
  }

  // ----- what a duration of whole components means -----

  datatype Part = Part(count: string, unit: string)

  function Size(unit: string): nat {
    if unit == "d" then HOURS_PER_DAY * HOUR else if unit == "w" then HOURS_PER_WEEK * HOUR else StdSize(unit)
  }

  /** Every unit is so many of the next smaller one, and nothing else is a unit. */
  lemma UnitsAreMultiples(unit: string)
    ensures Size("ns") == 1 && Size("us") == 1000 * Size("ns") && Size("ms") == 1000 * Size("us") && Size("s") == 1000 * Size("ms")
    ensures Size("\U{00B5}s") == Size("\U{03BC}s") == Size("us")
    ensures Size("m") == 60 * Size("s") && Size("h") == 60 * Size("m") && Size("d") == 24 * Size("h") && Size("w") == 7 * Size("d")
    ensures Size(unit) > 0 <==> unit in ["ns", "us", "\U{00B5}s", "\U{03BC}s", "ms", "s", "m", "h", "d", "w"]
  {}

  lemma SummedComponent(s: string, before: nat, floats: Floats)
    requires s != "" && before <= LIMIT && StdSum(s, before, floats).Some?
    ensures var n := NumericRun(s);
            var text := s[..n];
            var whole := WholePart(text);
            var fraction := text[|whole|..];
      && n > 0 && (|fraction| > 0 ==> '.' !in fraction[1..]) && (whole != "" || |fraction| > 1)
      && StdSize(s[n..n + UnitRun(s[n..])]) > 0
  {
    hide NumberOf, Product, StdSize, NumericRun, UnitRun, WholePart;
  }

  lemma DigitAndPoint(text: string)
    requires forall i | 0 <= i < |text| :: Numeric(text[i])
    requires var whole := WholePart(text);
             var fraction := text[|whole|..];
             (|fraction| > 0 ==> '.' !in fraction[1..]) && (whole != "" || |fraction| > 1)
    ensures exists i :: 0 <= i < |text| && IsDigit(text[i])
    ensures forall i, j | 0 <= i < j < |text| :: text[i] != '.' || text[j] != '.'
  {
    var whole := WholePart(text);
    var fraction := text[|whole|..];
    hide WholePart;
    assert forall i | 0 <= i < |whole| :: text[i] == whole[i] && whole[i] in whole;
    assert forall j | |whole| < j < |text| :: fraction[1..][j - |whole| - 1] == text[j];
    assert IsDigit(text[if whole != "" then 0 else 1]);
  }

  /** Every component needs a digit and may have one point; its unit has to be one of the library's. */
  lemma ComponentsAreNumbers(s: string, before: nat, floats: Floats)
    requires s != "" && before <= LIMIT && StdSum(s, before, floats).Some?
    ensures var n := NumericRun(s);
      && (exists i :: 0 <= i < n && IsDigit(s[i]))
      && (forall i, j | 0 <= i < j < n :: s[i] != '.' || s[j] != '.')
      && StdSize(s[n..n + UnitRun(s[n..])]) > 0
  {
    SummedComponent(s, before, floats);
    var n := NumericRun(s);
    hide StdSum, WholePart, Numeric, NumericRun, UnitRun, StdSize;
    DigitAndPoint(s[..n]);
    assert forall i | 0 <= i < n :: s[..n][i] == s[i];
  }

  predicate Whole(parts: seq<Part>) {
    forall p | p in parts :: p.count != "" && AllDigits(p.count) && Size(p.unit) > 0
  }

  predicate Standard(parts: seq<Part>) {
    Whole(parts) && forall p | p in parts :: StdSize(p.unit) > 0
  }

  function Render(parts: seq<Part>): string {
    if parts == [] then "" else parts[0].count + parts[0].unit + Render(parts[1..])
  }

  function Meaning(parts: seq<Part>): nat
    requires Whole(parts)
  {
    if parts == [] then 0 else Product(NumberOf(parts[0].count), Size(parts[0].unit)) + Meaning(parts[1..])
  }

  lemma UnitIsNotNumeric(unit: string)
    requires Size(unit) > 0
    ensures unit != "" && forall i | 0 <= i < |unit| :: !Numeric(unit[i])
  {}

  lemma {:induction false} RenderStartsNumeric(parts: seq<Part>)
    requires Whole(parts)
    ensures parts != [] ==> Render(parts) != "" && IsDigit(Render(parts)[0])
    ensures parts == [] ==> Render(parts) == ""
  {
    if parts != [] { assert parts[0].count[0] in parts[0].count; }
  }

  /** The scanner finds the first part. */
  lemma RenderScans(parts: seq<Part>)
    requires Whole(parts) && parts != []
    ensures var s, n := Render(parts), |parts[0].count|;
            && n <= |s| && NumericRun(s) == n && UnitRun(s[n..]) == |parts[0].unit| <= |s[n..]|
            && s[..n] == parts[0].count && s[n..n + |parts[0].unit|] == parts[0].unit
            && s[n + |parts[0].unit|..] == Render(parts[1..])
  {
    hide NumericRun, UnitRun, StdSize, Size;
    var first, rest := parts[0], Render(parts[1..]);
    UnitIsNotNumeric(first.unit);
    RenderStartsNumeric(parts[1..]);
    assert Render(parts) == first.count + first.unit + rest;
    ScansFirst(first.count, first.unit, rest);
  }

  lemma ScansFirst(count: string, unit: string, rest: string)
    requires AllDigits(count) && unit != "" && (forall i | 0 <= i < |unit| :: !Numeric(unit[i]))
    requires rest != "" ==> IsDigit(rest[0])
    ensures var s := count + unit + rest;
            && NumericRun(s) == |count| && UnitRun(s[|count|..]) == |unit|
            && s[..|count|] == count && s[|count|..|count| + |unit|] == unit && s[|count| + |unit|..] == rest
  {
    hide NumericRun, UnitRun;
    var s := count + unit + rest;
    assert forall i | 0 <= i < |count| :: s[i] == count[i] && s[i] in count;
    assert s[|count|] == unit[0];
    RunIs(s, |count|);
    assert s[|count|..] == unit + rest;
    UnitIs(unit + rest, |unit|);
  }

  lemma {:induction false} WholePartOfDigits(s: string)
    requires AllDigits(s)
    ensures WholePart(s) == s
  {
    if s != "" {
      assert s[0] in s;
      WholePartOfDigits(s[1..]);
      assert s == [s[0]] + s[1..];
    }
  }

  lemma OverflowCheck(count: nat, size: nat)
    requires size > 0
    ensures Overflows(count, size) <==> Product(count, size) > LIMIT
    ensures count <= Product(count, size)
  {
    var q := LIMIT / size;
    assert LIMIT == size * q + LIMIT % size;
    if count > q { ProductGrows(q + 1, count, size); } else { ProductGrows(count, q, size); }
    ProductGrows(1, size, count);
    hide Product;
    ProductNext(q, size);
  }

  lemma ProductGrows(low: nat, high: nat, size: nat)
    requires low <= high
    ensures Product(low, size) <= Product(high, size)
    ensures Product(size, low) <= Product(size, high)
  {}

  lemma ProductNext(q: nat, size: nat)
    ensures Product(q, size) == size * q && Product(q + 1, size) == size * q + size
    ensures Product(q, 1) == q
  {}

  lemma StdUnfolds(s: string, count: string, unit: string, before: nat, floats: Floats)
    requires count != "" && AllDigits(count) && StdSize(unit) > 0 && before <= LIMIT
    requires var n := |count|;
             && n <= |s| && NumericRun(s) == n && UnitRun(s[n..]) == |unit| <= |s[n..]|
             && s[..n] == count && s[n..n + |unit|] == unit
    ensures var d := before + Product(NumberOf(count), StdSize(unit));
            StdSum(s, before, floats) == if d > LIMIT then None else StdSum(s[|count| + |unit|..], d, floats)
  {
    hide NumericRun, UnitRun, StdSize, NumberOf, Product, Overflows, WholePart;
    WholePartOfDigits(count);
    OverflowCheck(NumberOf(count), StdSize(unit));
    assert count[|count|..] == "";
  }

  lemma MeaningUnfolds(parts: seq<Part>)
    requires Whole(parts) && parts != []
    ensures Whole(parts[1..]) && AllDigits(parts[0].count) && parts[0].count != "" && Size(parts[0].unit) > 0
    ensures Meaning(parts) == Product(NumberOf(parts[0].count), Size(parts[0].unit)) + Meaning(parts[1..])
  {
    hide Size, NumberOf, Product;
    assert parts[0] in parts;
  }

  lemma StandardSize(unit: string)
    requires StdSize(unit) > 0
    ensures Size(unit) == StdSize(unit)
  {}

  lemma StdTakesOne(parts: seq<Part>, before: nat, floats: Floats)
    requires Standard(parts) && parts != [] && before <= LIMIT
    ensures AllDigits(parts[0].count) && Standard(parts[1..])
    ensures var d := before + Product(NumberOf(parts[0].count), Size(parts[0].unit));
            StdSum(Render(parts), before, floats) == if d > LIMIT then None else StdSum(Render(parts[1..]), d, floats)
  {
    hide NumericRun, UnitRun, StdSize, Size, NumberOf, Product, StdSum, Render;
    var first := parts[0];
    assert first in parts;
    RenderScans(parts);
    StandardSize(first.unit);
    StdUnfolds(Render(parts), first.count, first.unit, before, floats);
  }

  /** The library sums whole components exactly, or says they are too many. */
  lemma {:induction false} StdSumsParts(parts: seq<Part>, before: nat, floats: Floats)
    requires Standard(parts) && before <= LIMIT
    ensures StdSum(Render(parts), before, floats) ==
      if before + Meaning(parts) <= LIMIT then Some(before + Meaning(parts)) else None
  {
    hide StdSize, Size, NumberOf, Product, StdSum, Render, Meaning, Standard, Whole, AllDigits;
    if parts == [] {
      StdSumsNothing(before, floats);
    } else {
      StdTakesOne(parts, before, floats);
      var d := before + Product(NumberOf(parts[0].count), Size(parts[0].unit));
      StandardIsWhole(parts);
      MeaningUnfolds(parts);
      if d <= LIMIT { StdSumsParts(parts[1..], d, floats); }
    }
  }

  lemma StandardIsWhole(parts: seq<Part>)
    requires Standard(parts)
    ensures Whole(parts)
  {}

  lemma StdSumsNothing(before: nat, floats: Floats)
    requires before <= LIMIT
    ensures StdSum(Render([]), before, floats) == Some(before) && Meaning([]) == 0
  {}

  /** What float64 makes of a whole number of days or weeks. */
  lemma HoursOf(count: string, per: nat, floats: Floats)
    requires floats.Lawful() && count != "" && AllDigits(count) && per in {HOURS_PER_DAY, HOURS_PER_WEEK}
    ensures var exact, text := NumberOf(count) * per, floats.hours(count, per);
            && (exact <= TWO_53 ==> text.Some?)
            && (text.Some? ==>
                 && text.value != "" && AllDigits(text.value)
                 && (NumberOf(text.value) == exact || (exact >= TWO_53 && NumberOf(text.value) >= TWO_53)))
  {
    hide NumberOf, Decimal;
    NumberOfDecimal(NumberOf(count) * per);
  }

  lemma HoursAreNanos(count: nat, per: nat)
    ensures Product(count * per, HOUR) == Product(count, per * HOUR)
    ensures count * per >= TWO_53 ==> Product(count * per, HOUR) > LIMIT
  {}

  /** One part rewritten means the same, or both are out of range. */
  lemma PartKeepsItsMeaning(p: Part, floats: Floats) returns (hours: Part)
    requires floats.Lawful() && Whole([p])
    ensures Component(p.count, p.unit, floats).None? ==> Product(NumberOf(p.count), Size(p.unit)) > LIMIT
    ensures Component(p.count, p.unit, floats).Some? ==>
      && Component(p.count, p.unit, floats) == Some(hours.count + hours.unit)
      && hours.count != "" && AllDigits(hours.count) && StdSize(hours.unit) > 0 && Size(hours.unit) == StdSize(hours.unit)
      && var exact, given := Product(NumberOf(p.count), Size(p.unit)), Product(NumberOf(hours.count), Size(hours.unit));
         exact == given || (exact > LIMIT && given > LIMIT)
  {
    hide NumberOf, Product;
    assert p in [p];
    hours := p;
    if p.unit == "d" || p.unit == "w" {
      var per := if p.unit == "w" then HOURS_PER_WEEK else HOURS_PER_DAY;
      HoursOf(p.count, per, floats);
      HoursAreNanos(NumberOf(p.count), per);
      assert Size(p.unit) == per * HOUR;
      var text := floats.hours(p.count, per);
      if text.Some? {
        hours := Part(text.value, "h");
        HoursAreNanos(NumberOf(text.value), 1);
      }
    }
  }

  lemma NothingExpandsToNothing(floats: Floats)
    ensures ExpandedFrom(Render([]), floats) == Some(Render([]))
  {}

  lemma RenderUnfolds(p: Part, rest: seq<Part>)
    ensures Render([p] + rest) == p.count + p.unit + Render(rest)
  {
    assert ([p] + rest)[1..] == rest;
  }

  /** Rewriting days and weeks keeps the sum, or keeps it out of range. */
  lemma {:induction false} ExpansionKeepsTheSum(parts: seq<Part>, floats: Floats) returns (hours: seq<Part>)
    requires floats.Lawful() && Whole(parts)
    ensures ExpandedFrom(Render(parts), floats).Some? ==>
      && Standard(hours) && |hours| == |parts| && ExpandedFrom(Render(parts), floats) == Some(Render(hours))
      && (Meaning(hours) == Meaning(parts) || (Meaning(hours) > LIMIT && Meaning(parts) > LIMIT))
    ensures ExpandedFrom(Render(parts), floats).None? ==> Meaning(parts) > LIMIT
  {
    hide NumericRun, UnitRun, StdSize, Size, NumberOf, Product, ExpandedFrom, Render, Meaning, Component;
    if parts == [] {
      hours := [];
      NothingExpandsToNothing(floats);
    } else {
      var p := parts[0];
      assert p in parts;
      RenderScans(parts);
      MeaningUnfolds(parts);
      ExpandUnfolds(Render(parts), |p.count|, |p.unit|, floats);
      var q := PartKeepsItsMeaning(p, floats);
      var rest := ExpansionKeepsTheSum(parts[1..], floats);
      hours := [q] + rest;
      if Component(p.count, p.unit, floats).Some? && ExpandedFrom(Render(parts[1..]), floats).Some? {
        assert hours[1..] == rest;
        MeaningUnfolds(hours);
        RenderUnfolds(q, rest);
      }
    }
  }

  function Sign(sign: string, nanos: nat): int {
    if sign == "-" then -(nanos as int) else nanos
  }

  /**
   * A duration of whole components in any units is the sum of them, days and weeks included; it is
   * refused exactly when the sum does not fit.
   */
  lemma WholeDurationsAddUp(sign: string, parts: seq<Part>, floats: Floats)
    requires floats.Lawful() && Whole(parts) && parts != [] && sign in {"", "+", "-"}
    ensures Parsed(sign + Render(parts), floats) ==
      if Meaning(parts) <= (if sign == "-" then LIMIT else LIMIT - 1) then Some(Sign(sign, Meaning(parts))) else None
  {
    hide NumericRun, UnitRun, StdSize, Size, NumberOf, Product, ExpandedFrom, Expanded, Meaning, StdSum, StdParse,
         Whole, Standard, Render, TrimSpace;
    RenderIsTrim(sign, parts);
    ExpandedSigned(sign, Render(parts), floats);
    var hours := ExpansionKeepsTheSum(parts, floats);
    if ExpandedFrom(Render(parts), floats).Some? {
      StandardIsWhole(hours);
      RenderIsTrim(sign, hours);
      StdParseSigned(sign, Render(hours), floats);
      StdSumsParts(hours, 0, floats);
    }
  }

  lemma ExpandedSigned(sign: string, body: string, floats: Floats)
    requires sign in {"", "+", "-"} && body != "" && IsDigit(body[0])
    ensures Expanded(sign + body, floats) == Then(Some(sign), ExpandedFrom(body, floats))
  {
    hide ExpandedFrom;
    var s := sign + body;
    if sign == "" {
      assert s == body;
      ThenIsAssociative(None, None, ExpandedFrom(body, floats));
    } else {
      assert s[..1] == sign && s[1..] == body;
    }
  }

  lemma StdParseSigned(sign: string, body: string, floats: Floats)
    requires sign in {"", "+", "-"} && body != "" && body != "0" && IsDigit(body[0])
    ensures var d := StdSum(body, 0, floats);
            StdParse(sign + body, floats) ==
              if d.Some? && d.value <= (if sign == "-" then LIMIT else LIMIT - 1) then Some(Sign(sign, d.value)) else None
  {
    hide StdSum;
    var s := sign + body;
    if sign == "" {
      assert s == body;
    } else {
      assert s[..1] == sign && s[1..] == body;
    }
  }

  lemma UnitEndsVisibly(unit: string)
    requires Size(unit) > 0
    ensures unit != "" && !IsSpace(unit[|unit| - 1]) && !IsDigit(unit[|unit| - 1])
  {}

  lemma {:induction false} RenderEndsVisibly(parts: seq<Part>)
    requires Whole(parts) && parts != []
    ensures var s := Render(parts); s != "" && !IsSpace(s[|s| - 1]) && !IsDigit(s[|s| - 1])
  {
    var first := parts[0];
    assert first in parts;
    assert Render(parts) == first.count + first.unit + Render(parts[1..]);
    if |parts| == 1 {
      UnitEndsVisibly(first.unit);
      assert Render(parts) == first.count + first.unit;
    } else {
      RenderEndsVisibly(parts[1..]);
    }
  }

  /** Rendered parts start in a digit and end in a letter. */
  lemma RenderIsTrim(sign: string, parts: seq<Part>)
    requires Whole(parts) && parts != [] && sign in {"", "+", "-"}
    ensures var s := sign + Render(parts);
            && TrimSpace(s) == s && s != "" && Render(parts) != "" && Render(parts) != "0"
            && IsDigit(Render(parts)[0])
  {
    hide Render, Whole, TrimSpace;
    RenderStartsNumeric(parts);
    RenderEndsVisibly(parts);
    TrimIdle(sign + Render(parts));
  }

  // ----- the printer -----

  datatype Unit = Unit(size: nat, suffix: string)

  const UNITS := [Unit(HOURS_PER_DAY * HOUR, "d"), Unit(HOUR, "h"), Unit(MINUTE, "m"), Unit(SECOND, "s")]

  /** Division that truncates, as Go's does. */
  function Quotient(n: int, size: int): int
    requires size > 0
  {
    if n < 0 then -(-n / size) else n / size
  }

  /** The largest unit that divides it; stdString is the standard library's form. */
  method FormatDuration(d: int, stdString: int -> string) returns (r: string)
    requires -LIMIT <= d < LIMIT
    ensures r == Formatted(d, stdString)
  {
    if d == 0 {
      return "0s";
    }
    var negative := d < 0;
    var n := d;
    if negative {
      n := Wrap64(-n);
    }
    var s := stdString(n);
    for i := 0 to |UNITS|
      invariant s == stdString(n)
      invariant FormattedFrom(n, 0, stdString) == FormattedFrom(n, i, stdString)
    {
      var unit := UNITS[i];
      if n % unit.size == 0 {
        s := FormatInt(Quotient(n, unit.size)) + unit.suffix;
        break;
      }
    }
    if negative {
      return "-" + s;
    }
    return s;
  }

  function FormattedFrom(n: int, i: nat, stdString: int -> string): string
    requires i <= |UNITS|
    decreases |UNITS| - i
  {
    if i == |UNITS| then stdString(n)
    else if n % UNITS[i].size == 0 then FormatInt(Quotient(n, UNITS[i].size)) + UNITS[i].suffix
    else FormattedFrom(n, i + 1, stdString)
  }

  function Formatted(d: int, stdString: int -> string): string
    requires -LIMIT <= d < LIMIT
  {
    if d == 0 then "0s"
    else if d < 0 then "-" + FormattedFrom(Wrap64(-d), 0, stdString)
    else FormattedFrom(d, 0, stdString)
  }

  lemma OnePart(p: Part)
    requires p.count != "" && AllDigits(p.count) && Size(p.unit) > 0
    ensures Whole([p]) && Meaning([p]) == Product(NumberOf(p.count), Size(p.unit))
    ensures Render([p]) == p.count + p.unit
  {
    hide Size, NumberOf, Product;
    assert Meaning([p][1..]) == 0 && Render([p][1..]) == "";
  }

  /** A positive whole number of seconds prints as one part that means it. */
  lemma FormatsAsOnePart(n: nat, stdString: int -> string) returns (p: Part)
    requires 0 < n && n % SECOND == 0
    ensures Whole([p]) && Meaning([p]) == n && FormattedFrom(n, 0, stdString) == Render([p])
  {
    hide NumberOf, Decimal, Whole, Render, Meaning;
    var i: nat := if n % (HOURS_PER_DAY * HOUR) == 0 then 0 else if n % HOUR == 0 then 1 else if n % MINUTE == 0 then 2 else 3;
    var unit := UNITS[i];
    p := Part(Decimal(n / unit.size), unit.suffix);
    assert FormattedFrom(n, 0, stdString) == FormattedFrom(n, i, stdString) == p.count + p.unit;
    NumberOfDecimal(n / unit.size);
    OnePart(p);
  }

  lemma ZeroSeconds()
    ensures NumberOf("0") == 0 && Size("s") > 0
  {
    assert "0"[..0] == "";
  }

  /** Every whole number of seconds reads back as itself. */
  lemma PrintedDurationsReadBack(d: int, floats: Floats, stdString: int -> string)
    requires floats.Lawful() && -LIMIT <= d < LIMIT && d % SECOND == 0
    ensures Parsed(Formatted(d, stdString), floats) == Some(d)
  {
    hide Parsed, FormattedFrom, Whole, Meaning, Render, Size, NumberOf;
    var sign := if d < 0 then "-" else "";
    if d == 0 {
      var p := Part("0", "s");
      ZeroSeconds();
      OnePart(p);
      WholeDurationsAddUp(sign, [p], floats);
      assert sign + Render([p]) == "0s";
    } else {
      var n := if d < 0 then -d else d;
      var p := FormatsAsOnePart(n, stdString);
      WholeDurationsAddUp(sign, [p], floats);
      assert Formatted(d, stdString) == sign + Render([p]);
    }
  }

  lemma NotAMultiple(n: int, k: int)
    requires k > 0 && k * SECOND > 0 && n % SECOND != 0
    ensures n % (k * SECOND) != 0
  {
    if n % (k * SECOND) == 0 { MultipleOfMore(n, k, SECOND); }
  }

  lemma FallsThrough(n: int, stdString: int -> string)
    requires n % SECOND != 0
    ensures FormattedFrom(n, 0, stdString) == stdString(n)
  {
    hide FormatInt, Quotient;
    NotAMultiple(n, 60);
    NotAMultiple(n, 60 * 60);
    NotAMultiple(n, 60 * 60 * HOURS_PER_DAY);
    assert FormattedFrom(n, 2, stdString) == FormattedFrom(n, 4, stdString);
  }

  /** What Duration.String and ParseDuration of the standard library promise each other. */
  ghost predicate StandardForms(stdString: int -> string, floats: Floats) {
    && (forall n | 0 < n < LIMIT ::
          var t := stdString(n);
          && |t| > 1 && IsDigit(t[0]) && !IsSpace(t[|t| - 1])
          && ExpandedFrom(t, floats) == Some(t) && StdSum(t, 0, floats) == Some(n))
    && var least := stdString(-LIMIT);
       least != "" && least[0] == '-' && !IsSpace(least[|least| - 1])
  }

  lemma StandardFormsReadBack(n: int, sign: string, floats: Floats, stdString: int -> string)
    requires StandardForms(stdString, floats) && 0 < n < LIMIT && sign in {"", "-"}
    ensures Parsed(sign + stdString(n), floats) == Some(Sign(sign, n))
  {
    hide ExpandedFrom, Expanded, StdSum, StdParse, TrimSpace;
    var t := stdString(n);
    TrimIdle(sign + t);
    ExpandedSigned(sign, t, floats);
    StdParseSigned(sign, t, floats);
  }

  /** -d overflows for the least int64, and its form begins with two signs. */
  lemma LeastDurationIsRefused(floats: Floats, stdString: int -> string)
    requires StandardForms(stdString, floats)
    ensures Parsed(Formatted(-LIMIT, stdString), floats) == None
  {
    var least := stdString(-LIMIT);
    assert least != "" && least[0] == '-' && !IsSpace(least[|least| - 1]);
    hide TrimSpace, StandardForms;
    FallsThrough(-LIMIT, stdString);
    assert Wrap64(LIMIT) == -LIMIT;
    var s := "-" + least;
    TrimIdle(s);
    assert s[1..] == least && s[..1] == "-";
    assert NumericRun(least) == 0;
    assert ExpandedFrom(least, floats) == Some(least);
    assert Expanded(s, floats) == Some(s);
    assert StdSum(least, 0, floats) == None;
    assert least != "0";
  }

  /** With the library's forms for the rest, a duration reads back exactly unless it is the least int64. */
  lemma DurationsReadBackIff(d: int, floats: Floats, stdString: int -> string)
    requires floats.Lawful() && StandardForms(stdString, floats) && -LIMIT <= d < LIMIT
    ensures Parsed(Formatted(d, stdString), floats) == Some(d) <==> d != -LIMIT
  {
    hide Parsed, StandardForms;
    if d == -LIMIT {
      LeastDurationIsRefused(floats, stdString);
    } else if d % SECOND == 0 {
      PrintedDurationsReadBack(d, floats, stdString);
    } else {
      var n, sign := if d < 0 then -d else d, if d < 0 then "-" else "";
      assert n % SECOND != 0;
      FallsThrough(n, stdString);
      assert "" + stdString(n) == stdString(n);
      StandardFormsReadBack(n, sign, floats, stdString);
    }
  }
}
