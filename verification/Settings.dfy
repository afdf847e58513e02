/**
 * Settings and their values (internal/config/settings.go, bind.go): how a field of the configuration is
 * written as text and read again, and which values survive that.
 */
module Settings {
  import opened Prelude
  import opened Text
  import opened Sums
  import opened Float64
  import opened Quoting
  import Duration
  import ByteSize

  const INT64_LIMIT := ByteSize.LIMIT

  datatype Kind = KindString | KindInt | KindBool | KindDuration | KindByteSize

  /** The type of the field a setting is bound to. */
  datatype Field = TextField | NumberField | SwitchField | SpanField | SizeField | LevelField

  /** What such a field holds. Levels are numbered, 1 the most severe; 0 is an unset one. */
  datatype Value =
    Text(text: string) | Number(n: int) | Switch(on: bool) | Span(nanos: int) | Size(bytes: int) | Level(level: nat)

  /** One entry of the registry that has a key; section and leaf are the key's halves. */
  datatype Setting = Setting(
    flag: string, section: string, leaf: string, kind: Kind, field: Field,
    standard: string, usage: string, secret: bool)

  function Key(s: Setting): string { s.section + "." + s.leaf }

  /** What the standard library brings. */
  datatype System = System(floats: Duration.Floats, stdString: int -> string, platform: ByteSize.Platform) {
    ghost predicate Lawful() {
      && floats.Lawful() && Duration.StandardForms(stdString, floats) && platform.Lawful()
      && forall n :: Quotable(stdString(n))
    }
  }

  // ----- log levels -----

  const LEVELS := ["FATAL", "ERROR", "WARN", "INFO", "DEBUG"]

  function LevelName(level: nat): string {
    if 1 <= level <= 5 then LEVELS[level - 1] else "UNKNOWN(" + Decimal(level) + ")"
  }

  /** A name in any case, the synonym, or the number. */
  function ParseLevel(s: string, upper: char -> char): Option<nat> {
    var name := Mapped(TrimSpace(s), upper);
    if name == "" then None
    else if name == LEVELS[0] then Some(1)
    else if name == LEVELS[1] then Some(2)
    else if name == LEVELS[2] then Some(3)
    else if name == LEVELS[3] then Some(4)
    else if name == LEVELS[4] then Some(5)
    else if name == "WARNING" then Some(3)
    else
      var n := ParseInt(name);
      if n.Some? && 1 <= n.value % 256 <= 5 then Some(n.value % 256) else None
  }

  // ----- to text and back -----

  function FormatSetting(v: Value, sys: System): string
    requires InRange(v)
  {
    match v
    case Text(t) => t
    case Number(n) => FormatInt(n)
    case Switch(on) => if on then "true" else "false"
    case Span(d) => Duration.Formatted(d, sys.stdString)
    case Size(n) => ByteSize.FormattedSize(n, 0)
    case Level(l) => LevelName(l)
  }

  /** What reading a text into a field gives; None is an error. A number or switch never is one. */
  function ReadSetting(field: Field, text: string, sys: System): Option<Value> {
    match field
    case TextField => Some(Text(text))
    case NumberField => Some(Number(if ParseInt(text).Some? then ParseInt(text).value else 0))
    case SwitchField => Some(Switch(text in ["1", "t", "T", "true", "TRUE", "True"]))
    case SpanField =>
      var d := Duration.Parsed(text, sys.floats);
      if d.None? then None else Some(Span(d.value))
    case SizeField =>
      var n := ByteSize.ParsedSize(text, sys.platform);
      if n.Err? then None else Some(Size(n.value))
    case LevelField =>
      var l := ParseLevel(text, sys.platform.upper);
      if l.None? then None else Some(Level(l.value))
  }

  function FieldOf(v: Value): Field {
    match v
    case Text(_) => TextField
    case Number(_) => NumberField
    case Switch(_) => SwitchField
    case Span(_) => SpanField
    case Size(_) => SizeField
    case Level(_) => LevelField
  }

  /** What the field's Go type can hold. */
  predicate InRange(v: Value) {
    match v
    case Number(n) => -INT64_LIMIT <= n < INT64_LIMIT
    case Span(d) => -INT64_LIMIT <= d < INT64_LIMIT
    case Size(n) => -INT64_LIMIT <= n < INT64_LIMIT
    case Level(l) => l < 256
    case _ => true
  }

  /** The values text can carry. */
  predicate Carried(v: Value, sys: System) {
    match v
    case Span(d) => d != -INT64_LIMIT
    case Size(n) =>
      n >= 0 && (Representable(n) || (Rounded(n) >= INT64_LIMIT && sys.platform.outOfRange(ByteSize.Whole(Rounded(n))) == n))
    case Level(l) => 1 <= l <= 5
    case _ => true
  }

  /** A level by name, in any capitals and with space around it; warning is warn. */
  lemma LevelNamesAreRead(s: string, upper: char -> char)
    ensures var name := Mapped(TrimSpace(s), upper);
      && (name == "FATAL" ==> ParseLevel(s, upper) == Some(1)) && (name == "ERROR" ==> ParseLevel(s, upper) == Some(2))
      && (name == "WARN" || name == "WARNING" ==> ParseLevel(s, upper) == Some(3))
      && (name == "INFO" ==> ParseLevel(s, upper) == Some(4)) && (name == "DEBUG" ==> ParseLevel(s, upper) == Some(5))
      && (name == "" ==> ParseLevel(s, upper) == None)
  {
    hide ParseInt;
  }

  /** A level by number is one of the five modulo 256, so 257 is taken for 1. */
  lemma LevelNumbersWrap(n: int, upper: char -> char)
    requires ByteSize.Uppercases(upper)
    ensures ParseLevel(FormatInt(n), upper) == if 1 <= n % 256 <= 5 then Some(n % 256) else None
  {
    NumbersAreTheirOwn(n, upper);
    IntegersReadBack(n);
    NumbersAreNoNames(FormatInt(n));
    hide FormatInt, ParseInt, TrimSpace;
  }

  lemma NumbersAreNoNames(text: string)
    requires text != "" && (IsDigit(text[0]) || text[0] == '-')
    ensures text !in LEVELS && text != "WARNING"
  {
    assert forall name | name in LEVELS :: name[0] in "FEWID";
  }

  lemma NumbersAreTheirOwn(n: int, upper: char -> char)
    requires ByteSize.Uppercases(upper)
    ensures var text := FormatInt(n);
      && text != "" && (IsDigit(text[0]) || text[0] == '-') && TrimSpace(text) == text && Mapped(text, upper) == text
  {
    hide Decimal;
    var text := FormatInt(n);
    var digits := Decimal(if n < 0 then -n else n);
    assert forall i | 0 <= i < |digits| :: digits[i] in digits;
    assert text[|text| - 1] == digits[|digits| - 1];
    assert forall i | 0 <= i < |text| :: IsDigit(text[i]) || text[i] == '-';
    TrimIdle(text);
  }

  /** Numbers and switches are read or taken for zero and off: nothing is an error. */
  lemma NonsenseIsZero(text: string, sys: System)
    ensures ReadSetting(NumberField, text, sys).Some? && ReadSetting(SwitchField, text, sys).Some?
    ensures (forall n :: ParseInt(text) != Some(n)) ==> ReadSetting(NumberField, text, sys) == Some(Number(0))
    ensures forall n | ParseInt(text) == Some(n) :: ReadSetting(NumberField, text, sys) == Some(Number(n))
    ensures ReadSetting(SwitchField, text, sys) == Some(Switch(true))
            <==> text == "1" || text == "t" || text == "T" || text == "true" || text == "TRUE" || text == "True"
  {
    hide ParseInt;
    if ParseInt(text).Some? { assert ParseInt(text) == Some(ParseInt(text).value); }
  }

  lemma NamesReadBackIff(l: nat, upper: char -> char)
    requires ByteSize.Uppercases(upper)
    ensures ParseLevel(LevelName(l), upper) == Some(l) <==> 1 <= l <= 5
  {
    hide TrimSpace, Decimal;
    var name := LevelName(l);
    TrimIdle(name);
    if 1 <= l <= 5 {
      assert Mapped(name, upper) == name;
    } else {
      assert Mapped(name, upper)[0] == 'U';
    }
  }

  lemma SpansReadBackIff(d: int, sys: System)
    requires sys.Lawful() && InRange(Span(d))
    ensures ReadSetting(SpanField, FormatSetting(Span(d), sys), sys) == Some(Span(d)) <==> Carried(Span(d), sys)
  {
    hide Duration.Parsed, Duration.Formatted, Duration.StandardForms, ByteSize.ParsedSize, ParseLevel, ParseInt;
    Duration.DurationsReadBackIff(d, sys.floats, sys.stdString);
  }

  lemma SizesReadBackIff(n: int, sys: System)
    requires sys.Lawful() && InRange(Size(n))
    ensures ReadSetting(SizeField, FormatSetting(Size(n), sys), sys) == Some(Size(n)) <==> Carried(Size(n), sys)
  {
    hide Duration.Parsed, ByteSize.ParsedSize, ByteSize.FormattedSize, ParseLevel, ParseInt, Rounded,
         Representable, Duration.StandardForms;
    if n >= 0 {
      ByteSize.PrintedSizesReadBackIff(n, sys.platform);
    } else {
      ByteSize.NegativeSizesAreRefused(n, sys.platform);
    }
  }

  lemma LawfulUppercases(sys: System)
    requires sys.Lawful()
    ensures ByteSize.Uppercases(sys.platform.upper)
  {}

  lemma LevelsReadBackIff(l: nat, sys: System)
    requires sys.Lawful()
    ensures ReadSetting(LevelField, LevelName(l), sys) == Some(Level(l)) <==> 1 <= l <= 5
  {
    hide ParseLevel, LevelName, System.Lawful;
    LawfulUppercases(sys);
    NamesReadBackIff(l, sys.platform.upper);
  }

  /** formatSetting and readSetting undo each other exactly for the values text can carry. */
  lemma FormatReadsBackIff(v: Value, sys: System)
    requires sys.Lawful() && InRange(v)
    ensures ReadSetting(FieldOf(v), FormatSetting(v, sys), sys) == Some(v) <==> Carried(v, sys)
  {
    hide Duration.Parsed, Duration.Formatted, ByteSize.ParsedSize, ByteSize.FormattedSize, ParseLevel, LevelName,
         ParseInt, FormatInt, Rounded, Representable, System.Lawful;
    match v {
      case Number(n) => IntegersReadBack(n);
      case Span(d) => SpansReadBackIff(d, sys);
      case Size(n) => SizesReadBackIff(n, sys);
      case Level(l) => LevelsReadBackIff(l, sys);
      case _ =>
    }
  }
}
