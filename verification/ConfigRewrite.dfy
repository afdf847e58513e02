/**
 * What rewriting the configuration keeps: the values, up to defaults for what was never set, as long as
 * the retired keys can be read; and the file itself, from the second rewrite on.
 */
module ConfigRewrite {
  import opened Prelude
  import opened Text
  import opened TextLines
  import opened Sums
  import opened Quoting
  import opened Settings
  import opened ConfigFile
  import opened ConfigLines
  import opened ConfigReader
  import opened Retiring
  import opened ConfigRoundTrip
  import Duration
  import ByteSize
  import MenuOrder

  // ----- a text that cannot be quoted -----

  lemma UnquotableEntryBreaks(s: Setting, value: string, r: Reading, sys: System)
    requires GoodSetting(s, sys) && s.kind != KindInt && s.kind != KindBool && !Quotable(Spelling(s, value, sys))
    ensures ReadLine(r, EntryLine(s, value, sys)).broken
  {
    hide Spelling, ReadLine, Quotable, Defaults;
    var text := Spelling(s, value, sys);
    ScalarReadsBack(s, text);
    EntryIsRead(r, s.leaf, YamlScalar(s, text));
  }

  lemma {:induction false} EntryIsThere(settings: seq<Setting>, s: Setting, values: Values, sys: System)
    requires Covers(values, settings) && s in settings
    ensures EntryLine(s, values[s.flag], sys) in AllSettingLines(settings, values, sys)
  {
    hide EntryLine, Capitalised, SecondComment;
    var front, last := settings[..|settings| - 1], settings[|settings| - 1];
    assert settings == front + [last];
    if s == last {
      assert EntryLine(s, values[s.flag], sys) in SettingLines(s, values[s.flag], sys);
    } else {
      EntryIsThere(front, s, values, sys);
    }
  }

  lemma {:induction false} EntryIsInTheFile(i: nat, k: nat, table: seq<Setting>, s: Setting, values: Values, sys: System)
    requires Covers(values, table) && s in table && i <= k < |SECTION_ORDER| && s.section == SECTION_ORDER[k]
    ensures EntryLine(s, values[s.flag], sys) in SectionsFrom(i, table, values, sys)
    decreases k - i
  {
    hide EntryLine, AllSettingLines;
    if i < k {
      EntryIsInTheFile(i + 1, k, table, s, values, sys);
    } else {
      var here := InSection(table, SECTION_ORDER[i]);
      assert s in here;
      EntryIsThere(here, s, values, sys);
    }
  }

  /** One text with a control character in it makes the whole file unreadable, whatever is retired. */
  lemma UnquotableTextBreaksTheFile(table: seq<Setting>, s: Setting, values: Values, o: RenderOptions, sys: System)
    requires sys.Lawful() && GoodTable(table, sys) && GoodOptions(o) && Covers(values, table) && PlainNumbers(table, values, sys)
    requires s in table && s.kind != KindInt && s.kind != KindBool && !Quotable(Spelling(s, values[s.flag], sys))
    ensures ReadText(Terminated(FileLines(table, values, o, sys))).broken
  {
    hide GoodSetting, GoodOptions, Heading, SectionsFrom, System.Lawful, YamlLines, Terminated, FileLines,
         Spelling, EntryLine, ReadLine, Quotable, PlainNumbers;
    var lines := Before(table, values, o, sys);
    TheRestIsRetired(table, values, o, sys);
    var k :| 0 <= k < |SECTION_ORDER| && SECTION_ORDER[k] == s.section;
    EntryIsInTheFile(0, k, table, s, values, sys);
    var line := EntryLine(s, values[s.flag], sys);
    assert line in lines;
    var i :| 0 <= i < |lines| && lines[i] == line;
    forall r: Reading
      ensures ReadLine(r, line).broken
    {
      UnquotableEntryBreaks(s, values[s.flag], r, sys);
    }
    BadLineBreaks(NOTHING_READ, lines, i);
    BrokenForGood(ReadLines(NOTHING_READ, lines), YamlLines(Terminated(Mapped(o.retired, ByLine()))));
  }

  // ----- what is retired -----

  /** What is read before the retired keys, but for the texts: every setting's key, and the last section. */
  ghost function SettingsRead(table: seq<Setting>): Reading {
    Reading(LastSection("", 0, table), map s | s in table :: Key(s) := "", false)
  }

  /** The lines of the retired keys, as YAML breaks them, can be read there. */
  ghost predicate RetiredReads(table: seq<Setting>, o: RenderOptions) {
    !ReadLines(SettingsRead(table), YamlLines(Terminated(Mapped(o.retired, ByLine())))).broken
  }

  ghost predicate SameButTexts(a: Reading, b: Reading) {
    a.section == b.section && a.broken == b.broken && a.found.Keys == b.found.Keys
  }

  lemma {:induction false} TextsDoNotMatter(a: Reading, b: Reading, lines: seq<string>)
    requires SameButTexts(a, b)
    ensures SameButTexts(ReadLines(a, lines), ReadLines(b, lines))
  {
    hide TrimSpace, IsComment, IsHeader, HeaderName, NbText, Cut, Scalar;
    if lines != [] { TextsDoNotMatter(a, b, lines[..|lines| - 1]); }
  }

  lemma {:induction false} FoundForGood(r: Reading, lines: seq<string>)
    ensures forall k | k in r.found :: k in ReadLines(r, lines).found && ReadLines(r, lines).found[k] == r.found[k]
  {
    hide TrimSpace, IsComment, IsHeader, HeaderName, NbText, Cut, Scalar;
    if lines != [] { FoundForGood(r, lines[..|lines| - 1]); }
  }

  lemma UnprintableCommentBreaks(r: Reading, line: string)
    requires CommentLine(line) && !NbText(line)
    ensures ReadLine(r, line).broken
  {
    CommentsAreComments(line);
  }

  /** Without a break in it, what is retired can be read if and only if it is printable. */
  lemma UnbrokenRetiredReadsIff(table: seq<Setting>, o: RenderOptions)
    requires RetiredIsUnbroken(o)
    ensures RetiredReads(table, o) <==> RetiredIsText(o)
  {
    hide RetiredIsUnbroken, RetiredIsText, Unbroken, NbText, CommentLine, YamlLines, Terminated, ReadLine;
    var lines := Mapped(o.retired, ByLine());
    RetiredLinesAre(o);
    LinesStandIff(lines);
    if forall line | line in lines :: NbText(line) {
      CommentsReadAsNothing(SettingsRead(table), lines + [""]);
    } else {
      var i :| 0 <= i < |lines| && !NbText(lines[i]);
      assert lines[i] in lines && (lines + [""])[i] == lines[i];
      forall r ensures ReadLine(r, lines[i]).broken { UnprintableCommentBreaks(r, lines[i]); }
      BadLineBreaks(SettingsRead(table), lines + [""], i);
    }
  }

  lemma PrintableIsUnbroken(o: RenderOptions)
    requires RetiredIsText(o)
    ensures RetiredIsUnbroken(o)
  {}

  // ----- one value through the file -----

  /** The spelling of the default or the value itself: either reads the same. */
  lemma SpellingReadsTheSame(s: Setting, text: string, sys: System)
    requires KindMatches(s.kind, s.field)
    ensures ReadSetting(s.field, Spelling(s, text, sys), sys) == ReadSetting(s.field, text, sys)
  {
    hide Duration.Parsed, ByteSize.ParsedSize, ParseLevel, ParseInt;
  }

  /** The value a rewrite settles on: the default for one whose text is its type's zero. */
  ghost function Settled(s: Setting, v: Value, sys: System): (n: Value)
    requires GoodSetting(s, sys) && InRange(v) && FieldOf(v) == s.field
    ensures InRange(n) && FieldOf(n) == s.field
  {
    if IsZeroValue(s.kind, FormatSetting(v, sys)) then
      var d :| Defaults(s, d, sys); d
    else v
  }

  /** What the file keeps of a value: everything, if its text is zero, carries it and can be quoted. */
  ghost predicate Kept(s: Setting, v: Value, sys: System)
    requires InRange(v)
  {
    IsZeroValue(s.kind, FormatSetting(v, sys)) || (Carried(v, sys) && (v.Text? ==> Quotable(v.text)))
  }

  lemma TextReadsAsSettledIff(s: Setting, v: Value, sys: System)
    requires sys.Lawful() && GoodSetting(s, sys) && InRange(v) && FieldOf(v) == s.field
    ensures ReadSetting(s.field, ValueText(s, v, sys), sys) == Some(Settled(s, v, sys))
      <==> IsZeroValue(s.kind, FormatSetting(v, sys)) || Carried(v, sys)
  {
    hide ReadSetting, FormatSetting, Carried, IsZeroValue, System.Lawful, FieldOf, InRange;
    FormatReadsBackIff(v, sys);
  }

  lemma IntegersArePlain(n: int)
    ensures PlainScalar(FormatInt(n)) && Quotable(FormatInt(n))
  {
    hide Decimal;
    var text := FormatInt(n);
    assert forall c | c in text :: IsDigit(c) || c == '-';
  }

  lemma QuotableConcat(a: string, b: string)
    ensures Quotable(a + b) <==> Quotable(a) && Quotable(b)
  {
    assert forall r | r in a :: r in a + b;
    assert forall r | r in b :: r in a + b;
  }

  lemma {:induction false} DurationTextIsQuotable(n: int, i: nat, sys: System)
    requires i <= |Duration.UNITS| && Quotable(sys.stdString(n))
    ensures Quotable(Duration.FormattedFrom(n, i, sys.stdString))
    decreases |Duration.UNITS| - i
  {
    assert forall u | u in Duration.UNITS :: Quotable(u.suffix);
    hide FormatInt, Duration.Quotient, Quotable;
    if i < |Duration.UNITS| {
      var unit := Duration.UNITS[i];
      DurationTextIsQuotable(n, i + 1, sys);
      IntegersArePlain(Duration.Quotient(n, unit.size));
      QuotableConcat(FormatInt(Duration.Quotient(n, unit.size)), unit.suffix);
    }
  }

  lemma {:induction false} SizeTextIsQuotable(n: int, i: nat)
    requires i <= |ByteSize.BINARY_UNITS|
    ensures Quotable(ByteSize.FormattedSize(n, i))
    decreases |ByteSize.BINARY_UNITS| - i
  {
    assert forall u | u in ByteSize.BINARY_UNITS :: Quotable(u.suffix);
    hide FormatInt, Quotable;
    IntegersArePlain(n);
    if i < |ByteSize.BINARY_UNITS| {
      var unit := ByteSize.BINARY_UNITS[i];
      SizeTextIsQuotable(n, i + 1);
      IntegersArePlain(n / unit.factor);
      QuotableConcat(FormatInt(n / unit.factor), unit.suffix);
    }
  }

  lemma LevelNameIsQuotable(l: nat)
    ensures Quotable(LevelName(l))
  {
    assert Quotable("UNKNOWN(") && Quotable(")");
    assert forall i | 0 <= i < 5 :: Quotable(LEVELS[i]);
    hide Quotable, Decimal;
    IntegersArePlain(l);
    QuotableConcat("UNKNOWN(", Decimal(l));
    QuotableConcat("UNKNOWN(" + Decimal(l), ")");
  }

  lemma LiteralsAreWritable()
    ensures Quotable("") && Quotable("0s") && Quotable("-") && PlainScalar("true") && PlainScalar("false")
  {}

  /** Texts have one spelling. */
  lemma TextSpelling(s: Setting, text: string, sys: System)
    requires s.kind == KindString
    ensures Spelling(s, text, sys) == text
  {}

  /** The writer's own spellings can all be written; a text can if it can be quoted. */
  lemma ValueTextIsWritableIff(s: Setting, v: Value, sys: System)
    requires sys.Lawful() && GoodSetting(s, sys) && InRange(v) && FieldOf(v) == s.field
    ensures Writable(s, Spelling(s, ValueText(s, v, sys), sys)) <==> (v.Text? ==> Quotable(v.text))
    ensures s.kind == KindInt || s.kind == KindBool ==> PlainScalar(Spelling(s, ValueText(s, v, sys), sys))
  {
    hide FormatInt, Duration.FormattedFrom, ByteSize.FormattedSize, LevelName, Quotable, PlainScalar, Defaults,
         EqualsDefault, Duration.StandardForms;
    LiteralsAreWritable();
    match v {
      case Text(t) => TextSpelling(s, ValueText(s, v, sys), sys);
      case Number(n) => IntegersArePlain(n);
      case Switch(on) =>
      case Span(d) =>
        var n := MenuOrder.Wrap64(-d);
        DurationTextIsQuotable(n, 0, sys);
        DurationTextIsQuotable(d, 0, sys);
        QuotableConcat("-", Duration.FormattedFrom(n, 0, sys.stdString));
      case Size(n) => SizeTextIsQuotable(n, 0);
      case Level(l) => LevelNameIsQuotable(l);
    }
  }

  // ----- what counts as unset -----

  lemma ZeroIsOneText()
    ensures FormatInt(0) == "0" && ParseInt("0") == Some(0) && ParseInt("") == None
  {
    assert "0"[..0] == "";
  }

  lemma ZeroNumberIff(n: int)
    ensures FormatInt(n) == "0" <==> n == 0
    ensures FormatInt(n) != ""
  {
    hide FormatInt, ParseInt;
    IntegersReadBack(n);
    ZeroIsOneText();
  }

  lemma ZeroSpanIff(d: int, sys: System)
    requires sys.Lawful() && InRange(Span(d))
    ensures Duration.Formatted(d, sys.stdString) == "0s" <==> d == 0
    ensures Duration.Formatted(d, sys.stdString) != ""
  {
    if d == -INT64_LIMIT {
      assert Duration.Formatted(d, sys.stdString)[0] == '-';
    } else {
      FormatReadsBackIff(Span(d), sys);
      Duration.PrintedDurationsReadBack(0, sys.floats, sys.stdString);
      assert Duration.Formatted(0, sys.stdString) == "0s";
      hide Duration.FormattedFrom;
      assert Duration.Parsed("", sys.floats) == None;
    }
    hide Duration.Parsed, System.Lawful;
  }

  lemma ZeroSizeIff(n: int)
    requires InRange(Size(n))
    ensures ByteSize.FormattedSize(n, 0) == "0" <==> n == 0
    ensures ByteSize.FormattedSize(n, 0) != ""
  {
    ZeroNumberIff(n);
    hide Decimal;
    if n >= 0 {
      var i := ByteSize.UnitChosen(n);
      assert FormatInt(n) == Decimal(n);
      if i < |ByteSize.BINARY_UNITS| { assert |ByteSize.BINARY_UNITS[i].suffix| == 3; }
    }
    hide ByteSize.FormattedSize;
  }

  /** Unset is exactly zero: the empty text, the number, the duration and the size of nothing; no switch and no level. */
  lemma UnsetIff(s: Setting, v: Value, sys: System)
    requires sys.Lawful() && InRange(v) && KindMatches(s.kind, FieldOf(v))
    ensures ValueText(s, v, sys) == if v in [Text(""), Number(0), Span(0), Size(0)] then s.standard else FormatSetting(v, sys)
  {
    hide FormatInt, Duration.Formatted, ByteSize.FormattedSize, System.Lawful, Decimal;
    match v {
      case Text(_) =>
      case Number(n) => ZeroNumberIff(n);
      case Switch(_) =>
      case Span(d) => ZeroSpanIff(d, sys);
      case Size(n) => ZeroSizeIff(n);
      case Level(l) => assert LevelName(l) != "";
    }
  }

  // ----- the whole configuration -----

  /** These are the values ValuesFrom gives. */
  predicate ValuesOf(values: Values, table: seq<Setting>, config: map<string, Value>, sys: System)
    requires Fits(table, config)
  {
    forall s | s in table :: s.flag in values && values[s.flag] == ValueText(s, config[s.flag], sys)
  }

  /** The configuration with each field whose text is zero replaced by its declared default. */
  ghost predicate IsSettled(after: map<string, Value>, table: seq<Setting>, config: map<string, Value>, sys: System)
    requires GoodTable(table, sys) && Fits(table, config)
  {
    forall s | s in table :: s.flag in after && after[s.flag] == Settled(s, config[s.flag], sys)
  }

  /**
   * Reading back what was written gives the configuration, defaults standing in for what was never
   * set, exactly when text can carry every value (sizes float64 holds, any duration but the least
   * int64, a real log level, and strings without control characters) and YAML can read the lines of
   * the retired keys there. It does so with each line read as it was written exactly when what is
   * retired can stand in a comment.
   */
  lemma ConfigurationReadsBackIff(
      table: seq<Setting>, config: map<string, Value>, after: map<string, Value>, values: Values, o: RenderOptions, sys: System)
    requires sys.Lawful() && GoodTable(table, sys) && GoodOptions(o) && Fits(table, config)
    requires ValuesOf(values, table, config, sys) && IsSettled(after, table, config, sys)
    ensures Loads(Terminated(FileLines(table, values, o, sys)), table, after, sys)
      <==> (forall s | s in table :: Kept(s, config[s.flag], sys)) && RetiredReads(table, o)
    ensures
      var lines := FileLines(table, values, o, sys);
      Loads(Terminated(lines), table, after, sys) && YamlLines(Terminated(lines)) == lines + [""]
      <==> (forall s | s in table :: Kept(s, config[s.flag], sys)) && RetiredIsText(o)
  {
    hide GoodSetting, GoodOptions, Settled, FormatSetting, IsZeroValue, Carried, Quotable, ReadSetting, ReadText,
         FileLines, Terminated, Spelling, ValueText, System.Lawful, FieldOf, InRange, Writable, PlainScalar,
         Records, YamlLines, RetiredIsText, RetiredIsUnbroken, RetiredReads;
    forall s | s in table
      ensures Writable(s, Spelling(s, values[s.flag], sys)) <==> (config[s.flag].Text? ==> Quotable(config[s.flag].text))
      ensures s.kind == KindInt || s.kind == KindBool ==> PlainScalar(Spelling(s, values[s.flag], sys))
    {
      assert GoodSetting(s, sys);
      ValueTextIsWritableIff(s, config[s.flag], sys);
    }
    RenderedLinesAreLinesIff(table, values, o, sys);
    if RetiredIsUnbroken(o) { UnbrokenRetiredReadsIff(table, o); }
    if RetiredIsText(o) { PrintableIsUnbroken(o); }
    if AllWritable(table, values, sys) {
      EachReadsBackIff(table, config, after, values, o, sys);
    } else {
      var s :| s in table && !Writable(s, Spelling(s, values[s.flag], sys));
      var text := Spelling(s, values[s.flag], sys);
      UnwritableIsUnquotable(s, text);
      UnquotableTextBreaksTheFile(table, s, values, o, sys);
      UnquotableIsNotKept(s, config[s.flag], sys);
    }
  }

  lemma UnwritableIsUnquotable(s: Setting, text: string)
    requires !Writable(s, text) && (s.kind == KindInt || s.kind == KindBool ==> PlainScalar(text))
    ensures s.kind != KindInt && s.kind != KindBool && !Quotable(text)
  {}

  lemma UnquotableIsNotKept(s: Setting, v: Value, sys: System)
    requires v.Text? && !Quotable(v.text) && GoodSetting(s, sys) && FieldOf(v) == s.field && InRange(v)
    ensures !Kept(s, v, sys)
  {}

  /** The settings are found as they were written, and the file is broken exactly if what is retired breaks it. */
  lemma SettingsAreFound(table: seq<Setting>, values: Values, o: RenderOptions, sys: System)
    requires sys.Lawful() && GoodTable(table, sys) && GoodOptions(o) && Covers(values, table) && AllWritable(table, values, sys)
    ensures var r := ReadText(Terminated(FileLines(table, values, o, sys)));
            && (r.broken <==> !RetiredReads(table, o))
            && forall s | s in table :: Resolved(s, r.found) == Spelling(s, values[s.flag], sys)
  {
    hide GoodSetting, GoodOptions, Before, YamlLines, Terminated, FileLines, ReadLine, Spelling, System.Lawful,
         LastSection, Key;
    assert PlainNumbers(table, values, sys);
    var r, lines := ReadLines(NOTHING_READ, Before(table, values, o, sys)), YamlLines(Terminated(Mapped(o.retired, ByLine())));
    WrittenIsRead(table, values, o, sys);
    TheRestIsRetired(table, values, o, sys);
    assert r.found.Keys == SettingsRead(table).found.Keys;
    TextsDoNotMatter(r, SettingsRead(table), lines);
    FoundForGood(r, lines);
  }

  lemma EachReadsBackIff(
      table: seq<Setting>, config: map<string, Value>, after: map<string, Value>, values: Values, o: RenderOptions, sys: System)
    requires sys.Lawful() && GoodTable(table, sys) && GoodOptions(o) && Fits(table, config)
    requires ValuesOf(values, table, config, sys) && IsSettled(after, table, config, sys)
    requires AllWritable(table, values, sys)
    requires forall s | s in table :: config[s.flag].Text? ==> Quotable(config[s.flag].text)
    ensures Loads(Terminated(FileLines(table, values, o, sys)), table, after, sys)
      <==> (forall s | s in table :: Kept(s, config[s.flag], sys)) && RetiredReads(table, o)
  {
    assert forall s | s in table :: KindMatches(s.kind, s.field);
    hide GoodSetting, GoodOptions, Settled, FormatSetting, IsZeroValue, Carried, Quotable, ReadSetting, ReadText,
         FileLines, Terminated, Spelling, ValueText, System.Lawful, FieldOf, InRange, Writable, RetiredReads, Resolved;
    SettingsAreFound(table, values, o, sys);
    forall s | s in table
      ensures ReadSetting(s.field, Spelling(s, values[s.flag], sys), sys) == Some(after[s.flag])
              <==> Kept(s, config[s.flag], sys)
    {
      assert GoodSetting(s, sys);
      SpellingReadsTheSame(s, values[s.flag], sys);
      TextReadsAsSettledIff(s, config[s.flag], sys);
    }
  }

  // ----- rewriting again -----

  lemma SettledSpellsTheSame(s: Setting, v: Value, sys: System)
    requires sys.Lawful() && GoodSetting(s, sys) && InRange(v) && FieldOf(v) == s.field
    ensures Spelling(s, ValueText(s, Settled(s, v, sys), sys), sys) == Spelling(s, ValueText(s, v, sys), sys)
  {
    hide FormatSetting, Carried, IsZeroValue, System.Lawful, ReadSetting, FieldOf, InRange;
    if IsZeroValue(s.kind, FormatSetting(v, sys)) {
      var d := Settled(s, v, sys);
      DefaultSpellsItself(s, d, sys);
    }
  }

  lemma DefaultSpellsItself(s: Setting, d: Value, sys: System)
    requires sys.Lawful() && GoodSetting(s, sys) && Defaults(s, d, sys)
    ensures Spelling(s, ValueText(s, d, sys), sys) == s.standard
  {
    hide Carried, System.Lawful, InRange, Duration.Parsed, ByteSize.ParsedSize, Duration.Formatted,
         ByteSize.FormattedSize;
    FormatReadsBackIff(d, sys);
  }

  lemma {:induction false} SameSpellingsSameLines(settings: seq<Setting>, a: Values, b: Values, sys: System)
    requires Covers(a, settings) && Covers(b, settings)
    requires forall s | s in settings :: Spelling(s, a[s.flag], sys) == Spelling(s, b[s.flag], sys)
    ensures AllSettingLines(settings, a, sys) == AllSettingLines(settings, b, sys)
  {
    hide Spelling, Capitalised, SecondComment, YamlScalar;
    if settings != [] {
      var front, s := settings[..|settings| - 1], settings[|settings| - 1];
      assert settings == front + [s];
      SameSpellingsSameLines(front, a, b, sys);
      assert SettingLines(s, a[s.flag], sys) == SettingLines(s, b[s.flag], sys);
    }
  }

  lemma {:induction false} SameSpellingsSameSections(i: nat, table: seq<Setting>, a: Values, b: Values, sys: System)
    requires i <= |SECTION_ORDER| && Covers(a, table) && Covers(b, table)
    requires forall s | s in table :: Spelling(s, a[s.flag], sys) == Spelling(s, b[s.flag], sys)
    ensures SectionsFrom(i, table, a, sys) == SectionsFrom(i, table, b, sys)
    decreases |SECTION_ORDER| - i
  {
    hide Spelling, SettingLines;
    if i < |SECTION_ORDER| {
      SameSpellingsSameSections(i + 1, table, a, b, sys);
      SameSpellingsSameLines(InSection(table, SECTION_ORDER[i]), a, b, sys);
    }
  }

  /** The second rewrite writes the file the first one wrote, whatever the configuration was. */
  lemma RewritingAgainChangesNothing(
      table: seq<Setting>, config: map<string, Value>, after: map<string, Value>, values: Values, again: Values,
      o: RenderOptions, sys: System)
    requires sys.Lawful() && GoodTable(table, sys) && Fits(table, config) && Fits(table, after)
    requires ValuesOf(values, table, config, sys) && IsSettled(after, table, config, sys) && ValuesOf(again, table, after, sys)
    ensures FileLines(table, again, o, sys) == FileLines(table, values, o, sys)
  {
    hide GoodSetting, Settled, Spelling, ValueText, System.Lawful, FieldOf, InRange, SectionsFrom;
    forall s | s in table
      ensures Spelling(s, again[s.flag], sys) == Spelling(s, values[s.flag], sys)
    {
      assert GoodSetting(s, sys);
      SettledSpellsTheSame(s, config[s.flag], sys);
    }
    SameSpellingsSameSections(0, table, again, values, sys);
  }
}
