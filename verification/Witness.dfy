/**
 * One platform that keeps all the laws the configuration's theorems rest on, and a few rows of the
 * registry on it: the hypotheses of those theorems can be met, together.
 */
module Witness {
  import opened Prelude
  import opened Text
  import opened Float64
  import opened Quoting
  import opened Settings
  import opened ConfigFile
  import opened ConfigLines
  import opened ConfigRoundTrip
  import opened Registry
  import Duration
  import ByteSize

  /** The exact product, whatever its size. */
  function ExactHours(digits: string, per: nat): Option<string> {
    if digits != "" && AllDigits(digits) then Some(Decimal(NumberOf(digits) * per)) else None
  }

  function NoFraction(digits: string, size: nat): nat { 0 }

  /** ParseFloat on whole numbers and words. */
  function WholeFloat(s: string): Option<ByteSize.Float> {
    if s in ByteSize.INFINITIES then Some(ByteSize.Infinite(false))
    else if s in ByteSize.NEGATIVE_INFINITIES then Some(ByteSize.Infinite(true))
    else if s == ByteSize.NOT_A_NUMBER then Some(ByteSize.Nan)
    else if s != "" && AllDigits(s) then Some(ByteSize.Whole(Rounded(NumberOf(s))))
    else if |s| > 1 && s[0] == '-' && AllDigits(s[1..]) then Some(ByteSize.Whole(0 - Rounded(NumberOf(s[1..]))))
    else None
  }

  function RoundedTimes(v: ByteSize.Float, f: nat): ByteSize.Float {
    if v.Finite? && v.x >= 0.0 then ByteSize.Whole(Rounded(v.x.Floor * f)) else v
  }

  function Least(v: ByteSize.Float): int { -ByteSize.LIMIT }

  function Upper(c: char): char {
    if 'a' <= c <= 'z' then c - 'a' + 'A' else c
  }

  /** Every duration in nanoseconds, which the library reads as well as its own form. */
  function Nanoseconds(n: int): string { FormatInt(n) + "ns" }

  const FLOATS := Duration.Floats(ExactHours, NoFraction)
  const PLATFORM := ByteSize.Platform(WholeFloat, RoundedTimes, Least, Upper)
  const SYSTEM := System(FLOATS, Nanoseconds, PLATFORM)

  lemma FloatsAreLawful()
    ensures FLOATS.Lawful()
  {
    forall digits, per | digits != "" && AllDigits(digits) && per in {Duration.HOURS_PER_DAY, Duration.HOURS_PER_WEEK}
      ensures var exact := NumberOf(digits) * per;
              && FLOATS.hours(digits, per) == Some(Decimal(exact))
              && Decimal(exact) != "" && AllDigits(Decimal(exact)) && NumberOf(Decimal(exact)) == exact
    {
      NumberOfDecimal(NumberOf(digits) * per);
    }
  }

  lemma SignIsNoDigit(digits: string)
    requires AllDigits(digits) && digits != ""
    ensures !AllDigits("-" + digits) && ("-" + digits)[1..] == digits
    ensures !ByteSize.IsWord(digits) && !ByteSize.IsWord("-" + digits)
  {
    assert ("-" + digits)[0] in "-" + digits;
    assert digits[0] in digits && ("-" + digits)[1] == digits[0];
  }

  lemma PlatformIsLawful()
    ensures PLATFORM.Lawful()
  {
    hide NumberOf, Rounded;
    forall digits | digits != "" && AllDigits(digits) && NumberOf(digits) < 2 * ByteSize.LIMIT
      ensures PLATFORM.parseFloat(digits) == Some(ByteSize.Whole(Rounded(NumberOf(digits))))
      ensures PLATFORM.parseFloat("-" + digits) == Some(ByteSize.Whole(0 - Rounded(NumberOf(digits))))
    {
      SignIsNoDigit(digits);
    }
    forall n: nat, f: nat | f > 0
      ensures PLATFORM.times(ByteSize.Whole(n), f) == ByteSize.Whole(Rounded(n * f))
    {
      assert (n as real).Floor == n;
    }
  }

  lemma NanosecondsRead(n: nat)
    requires 0 < n < ByteSize.LIMIT
    ensures var t := Nanoseconds(n);
      && |t| > 1 && IsDigit(t[0]) && !IsSpace(t[|t| - 1])
      && Duration.ExpandedFrom(t, FLOATS) == Some(t) && Duration.StdSum(t, 0, FLOATS) == Some(n)
  {
    NanosecondsLook(n);
    NanosecondsExpand(n);
    NanosecondsAddUp(n);
  }

  lemma NanosecondsLook(n: nat)
    ensures Nanoseconds(n) == Decimal(n) + "ns"
    ensures var t := Nanoseconds(n); |t| > 1 && IsDigit(t[0]) && !IsSpace(t[|t| - 1])
  {
    assert Nanoseconds(n) == Decimal(n) + "ns";
    hide Decimal;
    assert Decimal(n)[0] in Decimal(n);
    assert (Decimal(n) + "ns")[|Decimal(n)| + 1] == 's';
  }

  lemma NanosecondsExpand(n: nat)
    ensures Duration.ExpandedFrom(Decimal(n) + "ns", FLOATS) == Some(Decimal(n) + "ns")
  {
    var p := Duration.Part(Decimal(n), "ns");
    hide Decimal, NumberOf, Duration.NumericRun, Duration.UnitRun, Duration.ExpandedFrom, Duration.Render, Duration.Size;
    OneNanosecondPart(n);
    Duration.RenderScans([p]);
    Duration.ExpandUnfolds(Duration.Render([p]), |p.count|, 2, FLOATS);
    assert [p][1..] == [];
    Duration.NothingExpandsToNothing(FLOATS);
    EmptyRender();
    assert (Decimal(n) + "ns") + "" == Decimal(n) + "ns";
  }

  lemma OneNanosecondPart(n: nat)
    ensures var p := Duration.Part(Decimal(n), "ns");
      && Duration.Standard([p]) && Duration.Render([p]) == Decimal(n) + "ns"
      && AllDigits(p.count) && Duration.Meaning([p]) == n
  {
    hide Decimal, NumberOf;
    NumberOfDecimal(n);
    Duration.OnePart(Duration.Part(Decimal(n), "ns"));
  }

  lemma NanosecondsAddUp(n: nat)
    requires n < ByteSize.LIMIT
    ensures Duration.StdSum(Decimal(n) + "ns", 0, FLOATS) == Some(n)
  {
    hide Decimal, Duration.StdSum, Duration.Render, Duration.Meaning;
    OneNanosecondPart(n);
    Duration.StdSumsParts([Duration.Part(Decimal(n), "ns")], 0, FLOATS);
  }

  lemma EmptyRender()
    ensures Duration.Render([]) == ""
  {}

  lemma NanosecondsAreQuotable(n: int)
    ensures Quotable(Nanoseconds(n))
  {
    var m: nat := if n < 0 then -n else n;
    assert forall c | c in Decimal(m) :: IsDigit(c);
  }

  lemma LeastForm()
    ensures var least := Nanoseconds(-ByteSize.LIMIT);
            least != "" && least[0] == '-' && !IsSpace(least[|least| - 1])
  {
    hide Decimal;
  }

  lemma FormsAreStandard()
    ensures Duration.StandardForms(Nanoseconds, FLOATS)
  {
    LeastForm();
    forall n | 0 < n < ByteSize.LIMIT
      ensures var t := Nanoseconds(n);
        && |t| > 1 && IsDigit(t[0]) && !IsSpace(t[|t| - 1])
        && Duration.ExpandedFrom(t, FLOATS) == Some(t) && Duration.StdSum(t, 0, FLOATS) == Some(n)
    {
      NanosecondsRead(n);
    }
    hide Nanoseconds, Duration.ExpandedFrom, Duration.StdSum;
  }

  /** All laws at once. */
  lemma SystemIsLawful()
    ensures SYSTEM.Lawful()
  {
    hide Duration.Floats.Lawful, ByteSize.Platform.Lawful, Duration.StandardForms, Nanoseconds, Quotable;
    FloatsAreLawful();
    PlatformIsLawful();
    FormsAreStandard();
    forall n ensures Quotable(Nanoseconds(n)) { NanosecondsAreQuotable(n); }
  }

  // ----- some rows -----

  const SERVER_USAGE := "PostgreSQL host name"
  const PORT_USAGE := "PostgreSQL port"

  const SERVER := Row("database-server", "database", "server", DefaultText("localhost"), SERVER_USAGE, false)
  const PORT := Row("database-port", "database", "port", DefaultNumber(5432), PORT_USAGE, false)

  lemma NamesArePlain()
    ensures PlainFlag("database-server") && PlainFlag("database-port")
    ensures PlainName("database") && PlainName("server") && PlainName("port")
    ensures NbText(SERVER_USAGE) && NbText(PORT_USAGE)
    ensures NbText("localhost")
  {}

  lemma ServerIsGood()
    ensures GoodSetting(SERVER, SYSTEM)
  {
    hide System.Lawful, GoodSetting, PlainFlag, PlainName, NbText, Quotable;
    SystemIsLawful();
    NamesArePlain();
    RowIsGood("database-server", "database", "server", DefaultText("localhost"), SERVER_USAGE, false, SYSTEM);
  }

  lemma PortIsGood()
    ensures GoodSetting(PORT, SYSTEM)
  {
    hide System.Lawful, GoodSetting, PlainFlag, PlainName, NbText, Quotable;
    SystemIsLawful();
    NamesArePlain();
    RowIsGood("database-port", "database", "port", DefaultNumber(5432), PORT_USAGE, false, SYSTEM);
  }

  /** Rows as the registry declares them make a table the theorems speak of. */
  lemma RowsAreGood()
    ensures GoodTable([SERVER, PORT], SYSTEM)
  {
    hide GoodSetting, Row;
    ServerIsGood();
    PortIsGood();
    RowsDiffer();
  }

  lemma RowsDiffer()
    ensures SERVER.section in SECTION_ORDER && PORT.section in SECTION_ORDER
    ensures SERVER.flag != PORT.flag && Key(SERVER) != Key(PORT)
  {
    assert SERVER.flag[9] == 's' && PORT.flag[9] == 'p';
    assert Key(SERVER)[9] == 's' && Key(PORT)[9] == 'p';
  }
}
