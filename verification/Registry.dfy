/**
 * The rows internal/config/settings.go declares, kind by kind. Its 38 rows with a key are instances of
 * these; a registry made of them is one the round trip is proved for.
 */
module Registry {
  import opened Prelude
  import opened Text
  import opened Quoting
  import opened Settings
  import opened ConfigFile
  import opened ConfigLines
  import opened ConfigRoundTrip
  import opened ConfigRewrite
  import Duration
  import ByteSize
  import Float64

  /** What a row's default is in Go: a text, a number, a switch, and texts for the rest. */
  datatype Default =
    | DefaultText(text: string)
    | DefaultNumber(n: nat)
    | DefaultSwitch(on: bool)
    | DefaultSpan(count: string, unit: string)
    | DefaultSize(size: nat, scale: nat)
    | DefaultLevel(level: nat)

  /** defaultString, with a duration and a size as the registry spells them: "15m", "5MiB". */
  function DefaultString(d: Default): string
    requires d.DefaultSize? ==> d.scale < |ByteSize.BINARY_UNITS|
  {
    match d
    case DefaultText(text) => text
    case DefaultNumber(n) => FormatInt(n)
    case DefaultSwitch(on) => if on then "true" else "false"
    case DefaultSpan(count, unit) => count + unit
    case DefaultSize(n, scale) => Decimal(n) + ByteSize.BINARY_UNITS[scale].suffix
    case DefaultLevel(level) => LevelName(level)
  }

  function KindOf(d: Default): (Kind, Field) {
    match d
    case DefaultText(_) => (KindString, TextField)
    case DefaultNumber(_) => (KindInt, NumberField)
    case DefaultSwitch(_) => (KindBool, SwitchField)
    case DefaultSpan(_, _) => (KindDuration, SpanField)
    case DefaultSize(_, _) => (KindByteSize, SizeField)
    case DefaultLevel(_) => (KindString, LevelField)
  }

  /** Defaults the types can hold, the texts printable. */
  predicate Sound(d: Default) {
    match d
    case DefaultText(text) => NbText(text)
    case DefaultNumber(n) => n < INT64_LIMIT
    case DefaultSwitch(_) => true
    case DefaultSpan(count, unit) =>
      && count != "" && AllDigits(count) && Duration.Size(unit) > 0
      && NumberOf(count) * Duration.Size(unit) < INT64_LIMIT
    case DefaultSize(n, scale) =>
      scale < |ByteSize.BINARY_UNITS| && 0 < n * ByteSize.BINARY_UNITS[scale].factor < INT64_LIMIT
    case DefaultLevel(level) => 1 <= level <= 5
  }

  function Row(flag: string, section: string, leaf: string, d: Default, usage: string, secret: bool): Setting
    requires Sound(d)
  {
    Setting(flag, section, leaf, KindOf(d).0, KindOf(d).1, DefaultString(d), usage, secret)
  }

  /** The value a declared default stands for. */
  function Meant(d: Default): Value
    requires Sound(d)
  {
    match d
    case DefaultText(text) => Text(text)
    case DefaultNumber(n) => Number(n)
    case DefaultSwitch(on) => Switch(on)
    case DefaultSpan(count, unit) => Span(NumberOf(count) * Duration.Size(unit))
    case DefaultSize(n, scale) => Size(n * ByteSize.BINARY_UNITS[scale].factor)
    case DefaultLevel(level) => Level(level)
  }

  lemma SpanDefaultReads(count: string, unit: string, sys: System)
    requires sys.Lawful() && Sound(DefaultSpan(count, unit))
    ensures ReadSetting(SpanField, count + unit, sys) == Some(Span(NumberOf(count) * Duration.Size(unit)))
  {
    hide ByteSize.ParsedSize, ParseLevel, ParseInt, NumberOf, Duration.Size, Duration.Parsed, Duration.Meaning,
         Duration.Render;
    var p := Duration.Part(count, unit);
    Duration.OnePart(p);
    Duration.WholeDurationsAddUp("", [p], sys.floats);
    assert "" + Duration.Render([p]) == count + unit;
  }

  lemma SizeDefaultReads(n: nat, scale: nat, sys: System)
    requires sys.Lawful() && Sound(DefaultSize(n, scale))
    ensures var bytes := n * ByteSize.BINARY_UNITS[scale].factor;
            && ReadSetting(SizeField, Decimal(n) + ByteSize.BINARY_UNITS[scale].suffix, sys) == Some(Size(bytes))
            && Float64.Representable(bytes)
  {
    hide Decimal, Duration.Parsed, ByteSize.ParsedSize, ParseLevel, ParseInt, Float64.Representable;
    ByteSize.BinarySizesReadBack(n, scale, sys.platform);
  }

  lemma TextDefaultReads(text: string, sys: System)
    ensures ReadSetting(TextField, text, sys) == Some(Text(text))
  {}

  lemma NumberDefaultReads(n: int, sys: System)
    ensures ReadSetting(NumberField, FormatInt(n), sys) == Some(Number(n))
  {
    hide ParseInt, FormatInt;
    IntegersReadBack(n);
  }

  lemma SwitchDefaultReads(on: bool, sys: System)
    ensures ReadSetting(SwitchField, if on then "true" else "false", sys) == Some(Switch(on))
  {}

  lemma DefaultReadsAsMeant(d: Default, sys: System)
    requires sys.Lawful() && Sound(d)
    ensures ReadSetting(KindOf(d).1, DefaultString(d), sys) == Some(Meant(d)) && InRange(Meant(d))
    ensures FieldOf(Meant(d)) == KindOf(d).1 && Carried(Meant(d), sys)
    ensures d.DefaultSpan? || d.DefaultSize? || FormatSetting(Meant(d), sys) == DefaultString(d)
  {
    hide NumberOf, Decimal, Duration.Size, Duration.Parsed, ByteSize.ParsedSize, ParseLevel, LevelName, ParseInt,
         FormatInt, Float64.Representable, Float64.Rounded, System.Lawful, ReadSetting;
    match d {
      case DefaultText(text) => TextDefaultReads(text, sys);
      case DefaultNumber(n) => NumberDefaultReads(n, sys);
      case DefaultSwitch(on) => SwitchDefaultReads(on, sys);
      case DefaultSpan(count, unit) =>
        SpanDefaultReads(count, unit, sys);
        assert NumberOf(count) * Duration.Size(unit) >= 0;
      case DefaultSize(n, scale) =>
        SizeDefaultReads(n, scale, sys);
      case DefaultLevel(level) => LevelsReadBackIff(level, sys);
    }
  }

  lemma DigitsAreText(digits: string)
    requires AllDigits(digits)
    ensures NbText(digits)
  {
    assert forall c | c in digits :: IsDigit(c);
  }

  lemma PlainIsText(text: string)
    requires PlainScalar(text)
    ensures NbText(text)
  {}

  lemma TextIsQuotable(text: string)
    requires NbText(text)
    ensures Quotable(text)
  {}

  lemma SuffixesAreText()
    ensures forall unit | Duration.Size(unit) > 0 :: NbText(unit)
    ensures forall i | 0 <= i < |ByteSize.BINARY_UNITS| :: NbText(ByteSize.BINARY_UNITS[i].suffix)
    ensures PlainScalar("true") && PlainScalar("false")
  {}

  lemma LevelNamesAreText(level: nat)
    requires 1 <= level <= 5
    ensures NbText(LevelName(level))
  {}

  lemma DefaultIsPlain(d: Default)
    requires Sound(d)
    ensures NbText(DefaultString(d)) && Quotable(DefaultString(d))
    ensures d.DefaultNumber? || d.DefaultSwitch? ==> PlainScalar(DefaultString(d))
  {
    hide Decimal, FormatInt, LevelName, NumberOf, NbText, Quotable, PlainScalar, Duration.Size, AllDigits;
    SuffixesAreText();
    match d {
      case DefaultText(_) =>
      case DefaultNumber(n) =>
        IntegersArePlain(n);
        PlainIsText(FormatInt(n));
      case DefaultSwitch(on) => PlainIsText(if on then "true" else "false");
      case DefaultSpan(count, unit) =>
        DigitsAreText(count);
        NbConcat(count, unit);
      case DefaultSize(n, scale) =>
        DigitsAreText(Decimal(n));
        NbConcat(Decimal(n), ByteSize.BINARY_UNITS[scale].suffix);
      case DefaultLevel(level) => LevelNamesAreText(level);
    }
    TextIsQuotable(DefaultString(d));
  }

  /** A row of the registry is a setting the round trip is proved for. */
  lemma RowIsGood(flag: string, section: string, leaf: string, d: Default, usage: string, secret: bool, sys: System)
    requires sys.Lawful() && Sound(d)
    requires PlainFlag(flag) && PlainName(section) && PlainName(leaf) && NbText(usage)
    ensures GoodSetting(Row(flag, section, leaf, d, usage, secret), sys)
  {
    hide DefaultString, System.Lawful, Carried, InRange, ReadSetting, FormatSetting, PlainFlag, PlainName,
         NbText, Quotable, PlainScalar, FieldOf, Sound;
    DefaultReadsAsMeant(d, sys);
    DefaultIsPlain(d);
    assert Defaults(Row(flag, section, leaf, d, usage, secret), Meant(d), sys);
  }
}
