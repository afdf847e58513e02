/** Strings as sequences of runes: trimming, per-rune lower-casing, byte order and decimal numerals. */
module Text {
  import opened Prelude

  /** unicode.IsSpace. */
  predicate IsSpace(c: char) {
    || c in "\t\n \r" || c == '\U{000B}' || c == '\U{000C}' || c == '\U{0085}' || c == '\U{00A0}'
    || c == '\U{1680}' || '\U{2000}' <= c <= '\U{200A}' || c == '\U{2028}' || c == '\U{2029}'
    || c == '\U{202F}' || c == '\U{205F}' || c == '\U{3000}'
  }

  function TrimLeft(s: string): string {
    if s != [] && IsSpace(s[0]) then TrimLeft(s[1..]) else s
  }

  function TrimRight(s: string): string {
    if s != [] && IsSpace(s[|s| - 1]) then TrimRight(s[..|s| - 1]) else s
  }

  /** strings.TrimSpace. */
  function TrimSpace(s: string): string {
    TrimRight(TrimLeft(s))
  }

  lemma {:induction false} TrimShrinks(s: string)
    ensures |TrimLeft(s)| <= |s| && |TrimRight(s)| <= |s|
    decreases |s|
  {
    if s != [] {
      TrimShrinks(s[1..]);
      TrimShrinks(s[..|s| - 1]);
    }
  }

  /** Text that neither starts nor ends in space is its own trimming. */
  lemma TrimIdle(s: string)
    requires s == [] || (!IsSpace(s[0]) && !IsSpace(s[|s| - 1]))
    ensures TrimSpace(s) == s
  {}

  /** What trimming leaves: the text from its first character that is no space to its last. */
  lemma TrimIs(s: string) returns (a: nat, b: nat)
    ensures a <= b <= |s| && TrimSpace(s) == s[a..b]
    ensures (forall i | 0 <= i < a :: IsSpace(s[i])) && (forall i | b <= i < |s| :: IsSpace(s[i]))
    ensures a < b ==> !IsSpace(s[a]) && !IsSpace(s[b - 1])
  {
    hide IsSpace;
    a := TrimLeftIs(s);
    var t := s[a..];
    var n := TrimRightIs(t);
    b := a + n;
    assert forall i | b <= i < |s| :: s[i] == t[i - a];
  }

  lemma {:induction false} TrimLeftIs(s: string) returns (a: nat)
    ensures a <= |s| && TrimLeft(s) == s[a..] && (forall i | 0 <= i < a :: IsSpace(s[i])) && (a < |s| ==> !IsSpace(s[a]))
  {
    hide IsSpace;
    a := 0;
    if s != "" && IsSpace(s[0]) {
      var rest := TrimLeftIs(s[1..]);
      a := rest + 1;
      assert forall i | 1 <= i < a :: s[i] == s[1..][i - 1];
    }
  }

  lemma {:induction false} TrimRightIs(s: string) returns (b: nat)
    ensures b <= |s| && TrimRight(s) == s[..b] && (forall i | b <= i < |s| :: IsSpace(s[i])) && (b > 0 ==> !IsSpace(s[b - 1]))
  {
    hide IsSpace;
    b := |s|;
    if s != "" && IsSpace(s[|s| - 1]) {
      b := TrimRightIs(s[..|s| - 1]);
    }
  }

  /** strings.ToLower: a map on runes. */
  function Lowered(s: string, lower: char -> char): string {
    seq(|s|, i requires 0 <= i < |s| => lower(s[i]))
  }

  /** Alike but for case: rune by rune the same in lower case. */
  predicate SameFolded(a: string, b: string, lower: char -> char) {
    |a| == |b| && forall i | 0 <= i < |a| :: lower(a[i]) == lower(b[i])
  }

  /** Two texts are the same in lower case if and only if they are alike but for case. */
  lemma LoweredAlikeIff(a: string, b: string, lower: char -> char)
    ensures Lowered(a, lower) == Lowered(b, lower) <==> SameFolded(a, b, lower)
  {
    if Lowered(a, lower) == Lowered(b, lower) {
      assert forall i | 0 <= i < |a| :: Lowered(a, lower)[i] == lower(a[i]) && Lowered(b, lower)[i] == lower(b[i]);
    }
  }

  lemma LoweredConcat(a: string, b: string, lower: char -> char)
    ensures Lowered(a + b, lower) == Lowered(a, lower) + Lowered(b, lower)
  {}

  /** strings.Cut: what stands before the first mark, and what after it. */
  function Cut(s: string, mark: char): Option<(string, string)> {
    if s == "" then None
    else if s[0] == mark then Some(("", s[1..]))
    else
      var rest := Cut(s[1..], mark);
      if rest.None? then None else Some(([s[0]] + rest.value.0, rest.value.1))
  }

  lemma {:induction false} CutAtMark(before: string, mark: char, after: string)
    requires mark !in before
    ensures Cut(before + [mark] + after, mark) == Some((before, after))
  {
    if before == "" {
      assert ("" + [mark] + after)[1..] == after;
    } else {
      assert (before + [mark] + after)[1..] == before[1..] + [mark] + after;
      CutAtMark(before[1..], mark, after);
      assert before == [before[0]] + before[1..];
    }
  }

  /** Cut splits at the first mark, and fails if and only if there is none. */
  lemma {:induction false} CutIs(s: string, mark: char)
    ensures Cut(s, mark).None? <==> mark !in s
    ensures Cut(s, mark).Some? ==>
      s == Cut(s, mark).value.0 + [mark] + Cut(s, mark).value.1 && mark !in Cut(s, mark).value.0
  {
    if s != "" && s[0] != mark {
      CutIs(s[1..], mark);
      assert s == [s[0]] + s[1..];
    }
  }

  // ----- numerals -----

  predicate IsDigit(c: char) { '0' <= c <= '9' }

  predicate AllDigits(s: string) { forall c | c in s :: IsDigit(c) }

  function DigitOf(c: char): nat
    requires IsDigit(c)
  {
    c as int - '0' as int
  }

  function DigitChar(d: nat): (c: char)
    requires d < 10
    ensures IsDigit(c) && DigitOf(c) == d
  {
    '0' + d as char
  }

  /** strconv.Itoa for what is not negative. */
  function Decimal(n: nat): (s: string)
    ensures s != [] && AllDigits(s)
  {
    if n < 10 then [DigitChar(n)] else Decimal(n / 10) + [DigitChar(n % 10)]
  }

  /** The number a run of digits denotes; leading zeros count for nothing. */
  function NumberOf(s: string): nat
    requires AllDigits(s)
  {
    if s == [] then 0 else 10 * NumberOf(s[..|s| - 1]) + DigitOf(s[|s| - 1])
  }

  lemma {:induction false} NumberOfDecimal(n: nat)
    ensures NumberOf(Decimal(n)) == n
  {
    if n < 10 {
      assert Decimal(n)[..0] == [];
    } else {
      NumberOfDecimal(n / 10);
      assert Decimal(n)[..|Decimal(n)| - 1] == Decimal(n / 10);
    }
  }

  /** No two numbers are written alike. */
  lemma DecimalInjective(m: nat, n: nat)
    requires Decimal(m) == Decimal(n)
    ensures m == n
  {
    NumberOfDecimal(m);
    NumberOfDecimal(n);
  }

  /** strconv.Itoa and strconv.FormatInt. */
  function FormatInt(n: int): string {
    if n < 0 then "-" + Decimal(-n) else Decimal(n)
  }

  /** strconv.Atoi and strconv.ParseInt, before their range is asked about. */
  function ParseInt(s: string): Option<int> {
    var digits := if s != "" && s[0] in "+-" then s[1..] else s;
    if digits == "" || !AllDigits(digits) then None
    else
      var n: int := NumberOf(digits);
      Some(if s[0] == '-' then -n else n)
  }

  /** Digits, with a sign before them or not. */
  predicate Spells(s: string, n: int, sign: string, digits: string) {
    && (sign == "" || sign == "+" || sign == "-") && digits != "" && AllDigits(digits) && s == sign + digits
    && n == if sign == "-" then 0 - NumberOf(digits) else NumberOf(digits)
  }

  lemma SpelledParses(s: string, n: int, sign: string, digits: string)
    requires Spells(s, n, sign, digits)
    ensures ParseInt(s) == Some(n)
  {
    hide NumberOf;
    assert digits[0] in digits;
    if sign == "" { assert s == digits; } else { assert s[1..] == digits && s[0] == sign[0]; }
  }

  /** These are the integers, and nothing else is. */
  lemma ParseIntIff(s: string, n: int)
    ensures ParseInt(s) == Some(n) <==> exists sign, digits :: Spells(s, n, sign, digits)
  {
    hide NumberOf;
    if ParseInt(s) == Some(n) {
      var signed := s[0] in "+-";
      var digits := if signed then s[1..] else s;
      var sign := if signed then [s[0]] else "";
      assert s == sign + digits;
      if !signed { assert s[0] in digits; }
      assert Spells(s, n, sign, digits);
    }
    forall sign, digits | Spells(s, n, sign, digits) ensures ParseInt(s) == Some(n) {
      SpelledParses(s, n, sign, digits);
    }
  }

  lemma IntegersReadBack(n: int)
    ensures ParseInt(FormatInt(n)) == Some(n)
  {
    hide Decimal;
    var m: nat := if n < 0 then -n else n;
    NumberOfDecimal(m);
    assert Decimal(m)[0] in Decimal(m);
    assert ("-" + Decimal(m))[1..] == Decimal(m);
  }

  lemma {:induction false} DecimalLength(n: nat, k: nat, power: nat)
    requires power == Pow10(k) && n < power && k > 0
    ensures |Decimal(n)| <= k
  {
    if n >= 10 {
      assert power == 10 * Pow10(k - 1);
      DecimalLength(n / 10, k - 1, Pow10(k - 1));
    }
  }

  function Pow10(k: nat): (p: nat)
    ensures p >= 1
  {
    if k == 0 then 1 else 10 * Pow10(k - 1)
  }

  // ----- byte order -----

  /** Go's < on strings; UTF-8 keeps code-point order. */
  predicate StringLess(a: string, b: string) {
    b != [] && (a == [] || a[0] < b[0] || (a[0] == b[0] && StringLess(a[1..], b[1..])))
  }

  /** The two agree up to k; there the first ends, or has the smaller rune. */
  predicate LessAt(a: string, b: string, k: nat) {
    k <= |a| && k < |b| && a[..k] == b[..k] && (k == |a| || a[k] < b[k])
  }

  lemma LessAtShifts(a: string, b: string, k: nat)
    requires a != [] && b != []
    ensures k > 0 ==> (LessAt(a, b, k) <==> a[0] == b[0] && LessAt(a[1..], b[1..], k - 1))
  {
    if 0 < k <= |a| && k <= |b| {
      var x, y := a[1..][..k - 1], b[1..][..k - 1];
      assert a[..k] == [a[0]] + x && b[..k] == [b[0]] + y;
      assert a[..k][1..] == x && b[..k][1..] == y && a[..k][0] == a[0] && b[..k][0] == b[0];
    }
  }

  /** One comes before the other where they first differ, or as the shorter of the two. */
  lemma {:induction false} StringLessIff(a: string, b: string)
    ensures StringLess(a, b) <==> exists k: nat :: LessAt(a, b, k)
  {
    if a == [] || b == [] {
      assert b != [] && a == [] ==> LessAt(a, b, 0);
    } else {
      StringLessIff(a[1..], b[1..]);
      forall k: nat ensures k > 0 ==> (LessAt(a, b, k) <==> a[0] == b[0] && LessAt(a[1..], b[1..], k - 1)) {
        LessAtShifts(a, b, k);
      }
      assert LessAt(a, b, 0) <==> a[0] < b[0];
      hide LessAt;
      if k: nat :| LessAt(a[1..], b[1..], k) && a[0] == b[0] { assert LessAt(a, b, k + 1); }
    }
  }

  lemma {:induction false} StringLessIrreflexive(a: string)
    ensures !StringLess(a, a)
  {
    if a != [] { StringLessIrreflexive(a[1..]); }
  }

  lemma {:induction false} StringLessTransitive(a: string, b: string, c: string)
    requires StringLess(a, b) && StringLess(b, c)
    ensures StringLess(a, c)
  {
    if a != [] && a[0] == b[0] == c[0] { StringLessTransitive(a[1..], b[1..], c[1..]); }
  }

  lemma {:induction false} StringLessTotal(a: string, b: string)
    ensures StringLess(a, b) || StringLess(b, a) || a == b
  {
    if a != [] && b != [] && a[0] == b[0] {
      StringLessTotal(a[1..], b[1..]);
      assert a == [a[0]] + a[1..] && b == [b[0]] + b[1..];
    }
  }

  lemma StringNotLess(a: string, b: string, c: string)
    requires !StringLess(a, b) && !StringLess(b, c)
    ensures !StringLess(a, c)
  {
    StringLessTotal(a, b);
    StringLessTotal(b, c);
    StringLessIrreflexive(a);
    if StringLess(b, a) && StringLess(a, c) { StringLessTransitive(b, a, c); }
  }
}
