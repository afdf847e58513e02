/**
 * Writing the configuration and reading it back: which lines YAML sees in the file, and what it finds in
 * them.
 */
module ConfigRoundTrip {
  import opened Prelude
  import opened Text
  import opened TextLines
  import opened Sums
  import opened Quoting
  import opened Settings
  import opened ConfigFile
  import opened ConfigLines
  import opened ConfigReader
  import opened Retiring
  import Duration
  import ByteSize
  import Float64

  // ----- what the registry has to be like -----

  /** TestEveryBoundSettingMatchesItsKind. */
  predicate KindMatches(kind: Kind, field: Field) {
    match field
    case TextField => kind == KindString
    case LevelField => kind == KindString
    case NumberField => kind == KindInt
    case SwitchField => kind == KindBool
    case SpanField => kind == KindDuration
    case SizeField => kind == KindByteSize
  }

  predicate PlainFlag(flag: string) {
    forall c | c in flag :: 'a' <= c <= 'z' || IsDigit(c) || c == '-'
  }

  predicate PlainScalar(text: string) {
    text != "" && forall c | c in text :: 'a' <= c <= 'z' || IsDigit(c) || c == '-'
  }

  /** The value a default stands for. */
  ghost predicate Defaults(s: Setting, d: Value, sys: System) {
    && ReadSetting(s.field, s.standard, sys) == Some(d)
    && InRange(d) && FieldOf(d) == s.field && Carried(d, sys)
    && (s.kind == KindDuration || s.kind == KindByteSize || FormatSetting(d, sys) == s.standard)
  }

  ghost predicate GoodSetting(s: Setting, sys: System) {
    && PlainName(s.section) && PlainName(s.leaf) && PlainFlag(s.flag) && NbText(s.usage) && NbText(s.standard)
    && KindMatches(s.kind, s.field) && Quotable(s.standard)
    && (s.kind == KindInt || s.kind == KindBool ==> PlainScalar(s.standard))
    && exists d :: Defaults(s, d, sys)
  }

  ghost predicate DistinctKeys(table: seq<Setting>) {
    forall i, j | 0 <= i < j < |table| :: Key(table[i]) != Key(table[j])
  }

  ghost predicate GoodTable(table: seq<Setting>, sys: System) {
    && (forall s | s in table :: GoodSetting(s, sys))
    && SectionsKnown(table) && DistinctFlags(table) && DistinctKeys(table)
  }

  predicate CommentText(lines: seq<string>) {
    forall line | line in lines :: CommentLine(line) && NbText(line)
  }

  /** What the writer itself puts into its comments. */
  predicate GoodOptions(o: RenderOptions) {
    NbText(o.verb) && NbText(o.generatedAt) && CommentText(o.explanation) && CommentText(o.retiredNote)
  }

  /** What is retired can stand in a comment. */
  predicate RetiredIsText(o: RenderOptions) {
    forall r | r in o.retired :: NbText(r.key) && NbText(r.value)
  }

  predicate RetiredIsUnbroken(o: RenderOptions) {
    forall r | r in o.retired :: Unbroken(r.key) && Unbroken(r.value)
  }

  // ----- one setting -----

  /** What the file can carry as this setting's text. */
  predicate Writable(s: Setting, text: string) {
    if s.kind == KindInt || s.kind == KindBool then PlainScalar(text) else Quotable(text)
  }

  lemma ScalarReadsBack(s: Setting, text: string)
    requires s.kind == KindInt || s.kind == KindBool ==> PlainScalar(text)
    ensures Standing(YamlScalar(s, text)) && Unbroken(YamlScalar(s, text))
    ensures Scalar(YamlScalar(s, text)) == if Writable(s, text) then Some(text) else None
  {
    hide Quotable;
    if s.kind == KindInt || s.kind == KindBool {
      assert text[0] in text && text[|text| - 1] in text;
    } else {
      QuotingIsUndoneIff(text);
      EscapedHasNoBreak(text);
    }
  }

  lemma EnvIsPrintable(flag: string, upper: char -> char)
    requires PlainFlag(flag) && ByteSize.Uppercases(upper)
    ensures NbText(Env(flag, upper))
  {
    var mapped := Mapped(flag, EnvRune(upper));
    forall i | 0 <= i < |flag|
      ensures NbChar(mapped[i])
    {
      assert flag[i] in flag;
    }
    assert NbText("DOENER_") && NbText(mapped);
    NbConcat("DOENER_", mapped);
  }

  lemma NbConcat(a: string, b: string)
    ensures NbText(a + b) <==> NbText(a) && NbText(b)
  {
    assert forall c | c in a :: c in a + b;
    assert forall c | c in b :: c in a + b;
  }

  lemma UnbrokenConcat(a: string, b: string)
    ensures Unbroken(a + b) <==> Unbroken(a) && Unbroken(b)
  {}

  lemma NbTextIsUnbroken(s: string)
    requires NbText(s)
    ensures Unbroken(s)
  {}

  lemma UnbrokenIsOneLine(s: string)
    requires Unbroken(s)
    ensures OneLine(s)
  {}

  lemma Indented(rest: string)
    requires NbText(rest)
    ensures CommentLine("  # " + rest) && NbText("  # " + rest)
  {
    assert ("  # " + rest)[..3] == "  #";
    NbConcat("  # ", rest);
  }

  lemma CapitalisedIsPrintable(usage: string)
    requires NbText(usage)
    ensures NbText(Capitalised(usage) + ".")
  {
    if usage != "" {
      assert usage == [usage[0]] + usage[1..];
      NbConcat([usage[0]], usage[1..]);
      assert NbText(Capitalised(usage)) by {
        if 'a' <= usage[0] <= 'z' { NbConcat([usage[0] - ('a' - 'A')], usage[1..]); }
      }
    }
    NbConcat(Capitalised(usage), ".");
  }

  lemma FirstComment(s: Setting)
    requires NbText(s.usage)
    ensures var line := "  # " + (Capitalised(s.usage) + "."); CommentLine(line) && NbText(line)
  {
    CapitalisedIsPrintable(s.usage);
    Indented(Capitalised(s.usage) + ".");
  }

  lemma LiteralsArePrintable()
    ensures NbText(".") && NbText("supplied as ") && NbText("May also be ") && NbText("the command line. ")
    ensures NbText("Never accepted on ") && NbText(". Default: ") && NbText(". Environment: ") && NbText("Flag: --")
    ensures NbText("(empty)")
  {}

  lemma SecretNoteIsPrintable(env: string)
    requires NbText(env)
    ensures NbText(SecretNote(env))
  {
    hide NbText;
    LiteralsArePrintable();
    NbConcat(env, ".");
    NbConcat("supplied as ", env + ".");
    NbConcat("May also be ", "supplied as " + (env + "."));
    NbConcat("the command line. ", "May also be " + ("supplied as " + (env + ".")));
    NbConcat("Never accepted on ", "the command line. " + ("May also be " + ("supplied as " + (env + "."))));
  }

  lemma FlagsArePrintable(flag: string)
    requires PlainFlag(flag)
    ensures NbText(flag)
  {}

  lemma SecondCommentIsOne(s: Setting, upper: char -> char)
    requires NbText(s.standard) && PlainFlag(s.flag) && ByteSize.Uppercases(upper)
    ensures CommentLine(SecondComment(s, upper)) && NbText(SecondComment(s, upper))
  {
    hide Env, CommentLine, NbText, PlainFlag;
    var env := Env(s.flag, upper);
    var standard := if s.standard == "" then "(empty)" else s.standard;
    LiteralsArePrintable();
    FlagsArePrintable(s.flag);
    EnvIsPrintable(s.flag, upper);
    if s.secret {
      SecretNoteIsPrintable(env);
      Indented(SecretNote(env));
    } else {
      NbConcat(". Default: ", standard);
      NbConcat(env, ". Default: " + standard);
      NbConcat(". Environment: ", env + (". Default: " + standard));
      NbConcat(s.flag, ". Environment: " + (env + (". Default: " + standard)));
      NbConcat("Flag: --", s.flag + (". Environment: " + (env + (". Default: " + standard))));
      Indented("Flag: --" + (s.flag + (". Environment: " + (env + (". Default: " + standard)))));
    }
  }

  lemma CommentsOf(s: Setting, sys: System)
    requires GoodSetting(s, sys) && sys.Lawful()
    ensures CommentText(["  # " + (Capitalised(s.usage) + "."), SecondComment(s, sys.platform.upper)])
  {
    hide Capitalised, SecondComment, CommentLine, NbText, Duration.StandardForms, Defaults;
    FirstComment(s);
    SecondCommentIsOne(s, sys.platform.upper);
  }

  /** A setting's three lines add its entry. */
  lemma SettingIsRead(r: Reading, s: Setting, value: string, sys: System)
    requires GoodSetting(s, sys) && sys.Lawful() && r.section == s.section && !r.broken && Key(s) !in r.found
    requires Writable(s, Spelling(s, value, sys))
    ensures ReadLines(r, SettingLines(s, value, sys)) == r.(found := r.found[Key(s) := Spelling(s, value, sys)])
  {
    var text := Spelling(s, value, sys);
    assert s.kind == KindInt || s.kind == KindBool ==> PlainScalar(text);
    hide Spelling, Capitalised, SecondComment, CommentLine, NbText, Writable, Defaults, System.Lawful,
         YamlScalar, Standing, Scalar, ReadLine;
    ScalarReadsBack(s, text);
    CommentsOf(s, sys);
    var comments := ["  # " + (Capitalised(s.usage) + "."), SecondComment(s, sys.platform.upper)];
    CommentsReadAsNothing(r, comments);
    var line := EntryLine(s, value, sys);
    EntryIsRead(r, s.leaf, YamlScalar(s, text));
    assert SettingLines(s, value, sys) == comments + [line];
    assert (comments + [line])[..2] == comments;
    assert Entry(r, s.leaf, YamlScalar(s, text)) == r.(found := r.found[Key(s) := text]);
  }

  // ----- the whole file -----

  /** Each of these settings found with its spelling, and nothing else new. */
  ghost predicate Records(after: map<string, string>, before: map<string, string>, settings: seq<Setting>,
                          values: Values, sys: System)
    requires Covers(values, settings)
  {
    && (forall k :: k in after <==> k in before || exists s :: s in settings && Key(s) == k)
    && (forall k | k in before :: k in after && after[k] == before[k])
    && (forall s | s in settings :: Key(s) in after && after[Key(s)] == Spelling(s, values[s.flag], sys))
  }

  ghost predicate AllWritable(settings: seq<Setting>, values: Values, sys: System)
    requires Covers(values, settings)
  {
    forall s | s in settings :: Writable(s, Spelling(s, values[s.flag], sys))
  }

  lemma RecordsOneMore(mid: map<string, string>, before: map<string, string>, front: seq<Setting>, s: Setting,
                       values: Values, sys: System)
    requires Covers(values, front + [s]) && Covers(values, front) && Records(mid, before, front, values, sys)
    requires Key(s) !in before && forall t | t in front :: Key(t) != Key(s)
    ensures Key(s) !in mid
    ensures s.flag in values
    ensures Records(mid[Key(s) := Spelling(s, values[s.flag], sys)], before, front + [s], values, sys)
  {
    hide Spelling, Key;
    assert s in front + [s];
    assert forall t :: t in front + [s] <==> t in front || t == s;
  }

  lemma RecordsNone(before: map<string, string>, values: Values, sys: System)
    ensures Covers(values, []) && Records(before, before, [], values, sys)
  {}

  lemma {:induction false} SettingsAreRead(r: Reading, settings: seq<Setting>, values: Values, sys: System)
    requires sys.Lawful() && Covers(values, settings) && AllWritable(settings, values, sys) && DistinctKeys(settings)
    requires forall s | s in settings :: GoodSetting(s, sys) && s.section == r.section && Key(s) !in r.found
    requires !r.broken
    ensures var after := ReadLines(r, AllSettingLines(settings, values, sys));
            !after.broken && after.section == r.section && Records(after.found, r.found, settings, values, sys)
  {
    hide GoodSetting, Spelling, Writable, SettingLines, System.Lawful, Key, ReadLine, Records;
    if settings == [] {
      RecordsNone(r.found, values, sys);
    } else {
      var front, s := settings[..|settings| - 1], settings[|settings| - 1];
      assert settings == front + [s];
      SettingsAreRead(r, front, values, sys);
      var mid := ReadLines(r, AllSettingLines(front, values, sys));
      assert forall t | t in front :: Key(t) != Key(s);
      assert s in settings;
      RecordsOneMore(mid.found, r.found, front, s, values, sys);
      SettingIsRead(mid, s, values[s.flag], sys);
      ReadConcat(r, AllSettingLines(front, values, sys), SettingLines(s, values[s.flag], sys));
    }
  }

  lemma {:induction false} SectionsKeepKeysApart(table: seq<Setting>, section: string)
    requires DistinctKeys(table)
    ensures DistinctKeys(InSection(table, section))
  {
    if table != [] {
      var front := table[..|table| - 1];
      SectionsKeepKeysApart(front, section);
      assert forall s | s in InSection(front, section) :: s in front && Key(s) != Key(table[|table| - 1]);
    }
  }

  lemma NamesArePlain(s: Setting, sys: System)
    requires GoodSetting(s, sys)
    ensures PlainName(s.section) && PlainName(s.leaf)
  {}

  lemma SectionIsRead(r: Reading, section: string, table: seq<Setting>, values: Values, sys: System)
    requires sys.Lawful() && Covers(values, table) && AllWritable(table, values, sys) && GoodTable(table, sys)
    requires forall s | s in table && s.section == section :: Key(s) !in r.found
    requires !r.broken
    ensures var after := ReadLines(r, SectionLines(section, InSection(table, section), values, sys));
            && !after.broken && Records(after.found, r.found, InSection(table, section), values, sys)
            && after.section == if InSection(table, section) == [] then r.section else section
  {
    hide GoodSetting, Spelling, Writable, SettingLines, System.Lawful, Key, ReadLine, PlainName;
    var settings := InSection(table, section);
    if settings != [] {
      SectionsKeepKeysApart(table, section);
      assert settings[0] in table;
      NamesArePlain(settings[0], sys);
      var header := ["", section + ":"];
      HeaderIsRead(r, section);
      assert header[..1] == [""] && header[..1][..0] == [];
      EmptyLineIsRead(r);
      assert ReadLines(r, header) == r.(section := section);
      SettingsAreRead(r.(section := section), settings, values, sys);
      ReadConcat(r, header, AllSettingLines(settings, values, sys));
    }
  }

  lemma EmptyLineIsRead(r: Reading)
    ensures ReadLine(r, "") == r && ReadLines(r, [""]) == r
  {
    assert [""][..0] == [];
  }

  /** The settings of the sections from the i-th on. */
  function SettingsFrom(table: seq<Setting>, i: nat): seq<Setting>
    requires i <= |SECTION_ORDER|
    decreases |SECTION_ORDER| - i
  {
    if i == |SECTION_ORDER| then [] else InSection(table, SECTION_ORDER[i]) + SettingsFrom(table, i + 1)
  }

  lemma {:induction false} SettingsFromIsExact(table: seq<Setting>, i: nat)
    requires i <= |SECTION_ORDER|
    ensures forall s :: s in SettingsFrom(table, i) <==> s in table && s.section in SECTION_ORDER[i..]
    decreases |SECTION_ORDER| - i
  {
    if i < |SECTION_ORDER| {
      SettingsFromIsExact(table, i + 1);
      assert SECTION_ORDER[i..] == [SECTION_ORDER[i]] + SECTION_ORDER[i + 1..];
    }
  }

  lemma SectionsAreDifferent(i: nat)
    requires i < |SECTION_ORDER|
    ensures SECTION_ORDER[i] !in SECTION_ORDER[i + 1..]
  {}

  lemma KeysAreDifferent(table: seq<Setting>, s: Setting, t: Setting)
    requires DistinctKeys(table) && s in table && t in table && s != t
    ensures Key(s) != Key(t)
  {
    hide Key;
    var i :| 0 <= i < |table| && table[i] == s;
    var j :| 0 <= j < |table| && table[j] == t;
  }

  lemma RecordsConcat(after: map<string, string>, mid: map<string, string>, before: map<string, string>,
                      a: seq<Setting>, b: seq<Setting>, values: Values, sys: System)
    requires Covers(values, a) && Covers(values, b)
    requires Records(mid, before, a, values, sys) && Records(after, mid, b, values, sys)
    ensures Covers(values, a + b) && Records(after, before, a + b, values, sys)
  {
    hide Spelling, Key;
    assert forall s :: s in a + b <==> s in a || s in b;
  }

  /** The section the file ends in: the last that has settings, or the one it was in. */
  function LastSection(before: string, i: nat, table: seq<Setting>): string
    requires i <= |SECTION_ORDER|
    decreases |SECTION_ORDER| - i
  {
    if i == |SECTION_ORDER| then before
    else LastSection(if InSection(table, SECTION_ORDER[i]) == [] then before else SECTION_ORDER[i], i + 1, table)
  }

  lemma {:induction false} SectionsAreRead(r: Reading, i: nat, table: seq<Setting>, values: Values, sys: System)
    requires sys.Lawful() && Covers(values, table) && AllWritable(table, values, sys) && GoodTable(table, sys)
    requires i <= |SECTION_ORDER| && Covers(values, SettingsFrom(table, i))
    requires forall s | s in SettingsFrom(table, i) :: Key(s) !in r.found
    requires !r.broken
    ensures var after := ReadLines(r, SectionsFrom(i, table, values, sys));
            && !after.broken && Records(after.found, r.found, SettingsFrom(table, i), values, sys)
            && after.section == LastSection(r.section, i, table)
    decreases |SECTION_ORDER| - i
  {
    hide GoodTable, AllWritable, Spelling, Key, System.Lawful, ReadLine, Records, InSection, SectionLines;
    if i == |SECTION_ORDER| {
      RecordsNone(r.found, values, sys);
    } else {
      var section := SECTION_ORDER[i];
      var here, rest := InSection(table, section), SettingsFrom(table, i + 1);
      SettingsFromIsExact(table, i);
      SettingsFromIsExact(table, i + 1);
      SectionsAreDifferent(i);
      assert forall s :: s in SettingsFrom(table, i) <==> s in here || s in rest;
      assert Covers(values, rest) && Covers(values, here);
      assert forall s | s in table && s.section == section :: s in here;
      SectionIsRead(r, section, table, values, sys);
      var lines := SectionLines(section, here, values, sys);
      var mid := ReadLines(r, lines);
      forall s | s in rest
        ensures Key(s) !in mid.found
      {
        NewToTheFile(mid.found, r.found, here, s, table, values, sys);
      }
      SectionsAreRead(mid, i + 1, table, values, sys);
      ReadConcat(r, lines, SectionsFrom(i + 1, table, values, sys));
      RecordsConcat(ReadLines(mid, SectionsFrom(i + 1, table, values, sys)).found, mid.found, r.found, here, rest, values, sys);
    }
  }

  lemma NewToTheFile(mid: map<string, string>, before: map<string, string>, here: seq<Setting>, s: Setting,
                     table: seq<Setting>, values: Values, sys: System)
    requires Covers(values, here) && Records(mid, before, here, values, sys) && GoodTable(table, sys)
    requires s in table && s !in here && Key(s) !in before && forall t | t in here :: t in table
    ensures Key(s) !in mid
  {
    hide GoodSetting, Spelling, Key;
    forall t | t in here
      ensures Key(t) != Key(s)
    {
      KeysAreDifferent(table, s, t);
    }
  }

  // ----- every line is one -----

  lemma HeadingIsComment(o: RenderOptions)
    requires GoodOptions(o)
    ensures CommentText(Heading(o))
  {
    var verb := if o.verb == "" then "install" else o.verb;
    var second := "# Generated by doenerstag " + verb + " on " + o.generatedAt;
    assert CommentLine("# doenerstag configuration") && CommentLine(second);
    assert NbText("# doenerstag configuration") && NbText("# Generated by doenerstag ") && NbText(" on ") && NbText("install");
    hide CommentLine, NbText;
    NbConcat("# Generated by doenerstag ", verb);
    NbConcat("# Generated by doenerstag " + verb, " on ");
    NbConcat("# Generated by doenerstag " + verb + " on ", o.generatedAt);
  }

  /** A retired key's line is a comment to the eye, has no break if the key and value have none, and is printable if they are. */
  lemma RetiredLineIs(r: Retired)
    ensures CommentLine(RetiredLine(r))
    ensures Unbroken(RetiredLine(r)) <==> Unbroken(r.key) && Unbroken(r.value)
    ensures NbText(RetiredLine(r)) <==> NbText(r.key) && NbText(r.value)
    ensures OneLine(RetiredLine(r)) <==> OneLine(r.key) && OneLine(r.value)
  {
    assert NbText("# ") && NbText(": ");
    NbConcat("# ", r.key);
    NbConcat("# " + r.key, ": ");
    NbConcat("# " + r.key + ": ", r.value);
    hide NbText;
  }

  lemma RetiredLinesAre(o: RenderOptions)
    ensures (forall line | line in Mapped(o.retired, ByLine()) :: Unbroken(line)) <==> RetiredIsUnbroken(o)
    ensures (forall line | line in Mapped(o.retired, ByLine()) :: NbText(line)) <==> RetiredIsText(o)
    ensures forall line | line in Mapped(o.retired, ByLine()) :: CommentLine(line)
    ensures (forall r | r in o.retired :: OneLine(r.key) && OneLine(r.value)) ==>
              forall line | line in Mapped(o.retired, ByLine()) :: OneLine(line)
  {
    hide NbText, CommentLine, RetiredLine, Unbroken, OneLine;
    var lines := Mapped(o.retired, ByLine());
    forall r | r in o.retired
      ensures RetiredLine(r) in lines
    {
      var i :| 0 <= i < |o.retired| && o.retired[i] == r;
      assert lines[i] == RetiredLine(r);
    }
    forall line | line in lines
      ensures exists r :: r in o.retired && line == RetiredLine(r)
    {
      var i :| 0 <= i < |lines| && lines[i] == line;
      assert o.retired[i] in o.retired;
    }
    forall r ensures CommentLine(RetiredLine(r)) { RetiredLineIs(r); }
    forall r ensures Unbroken(RetiredLine(r)) <==> Unbroken(r.key) && Unbroken(r.value) { RetiredLineIs(r); }
    forall r ensures NbText(RetiredLine(r)) <==> NbText(r.key) && NbText(r.value) { RetiredLineIs(r); }
    forall r ensures OneLine(RetiredLine(r)) <==> OneLine(r.key) && OneLine(r.value) { RetiredLineIs(r); }
  }

  /**
   * The block of retired keys is blank lines and comments if and only if what they hold may stand in a
   * comment.
   */
  lemma RetiredBlockIsComment(o: RenderOptions)
    requires GoodOptions(o)
    ensures (forall line | line in RetiredBlock(o) :: line == "" || (CommentLine(line) && NbText(line))) <==> RetiredIsText(o)
  {
    RetiredLinesAre(o);
    hide CommentLine, NbText;
    assert forall line | line in Mapped(o.retired, ByLine()) :: line in RetiredBlock(o);
    if o.retired != [] && exists line :: line in Mapped(o.retired, ByLine()) && !NbText(line) {
      var line :| line in Mapped(o.retired, ByLine()) && !NbText(line);
      NothingIsPrintable();
    }
  }

  lemma NothingIsPrintable()
    ensures NbText("") && Unbroken("")
  {}

  /** Numbers and switches stand as they are; what is quoted may be anything. */
  ghost predicate PlainNumbers(settings: seq<Setting>, values: Values, sys: System)
    requires Covers(values, settings)
  {
    forall s | s in settings && (s.kind == KindInt || s.kind == KindBool) :: PlainScalar(Spelling(s, values[s.flag], sys))
  }

  lemma CommentTextIsUnbroken(lines: seq<string>)
    requires CommentText(lines)
    ensures forall line | line in lines :: Unbroken(line)
  {
    hide CommentLine, NbText, Unbroken;
    forall line | line in lines ensures Unbroken(line) { NbTextIsUnbroken(line); }
  }

  lemma NamesAreUnbroken(name: string)
    requires PlainName(name)
    ensures Unbroken(name) && Unbroken("  ") && Unbroken(": ")
  {}

  lemma SettingLinesAreLines(s: Setting, value: string, sys: System)
    requires GoodSetting(s, sys) && sys.Lawful()
    requires s.kind == KindInt || s.kind == KindBool ==> PlainScalar(Spelling(s, value, sys))
    ensures forall line | line in SettingLines(s, value, sys) :: Unbroken(line)
  {
    NamesAreUnbroken(s.leaf);
    hide Spelling, System.Lawful, Defaults, YamlScalar, Capitalised, SecondComment, Unbroken, CommentLine, NbText;
    var scalar := YamlScalar(s, Spelling(s, value, sys));
    CommentsOf(s, sys);
    CommentTextIsUnbroken(["  # " + (Capitalised(s.usage) + "."), SecondComment(s, sys.platform.upper)]);
    assert forall line | line in ["  # " + (Capitalised(s.usage) + "."), SecondComment(s, sys.platform.upper)] :: Unbroken(line);
    ScalarReadsBack(s, Spelling(s, value, sys));
    UnbrokenConcat("  ", s.leaf);
    UnbrokenConcat("  " + s.leaf, ": ");
    UnbrokenConcat("  " + s.leaf + ": ", scalar);
  }

  lemma {:induction false} SettingsAreLines(settings: seq<Setting>, values: Values, sys: System)
    requires sys.Lawful() && Covers(values, settings) && PlainNumbers(settings, values, sys)
    requires forall s | s in settings :: GoodSetting(s, sys)
    ensures forall line | line in AllSettingLines(settings, values, sys) :: Unbroken(line)
  {
    hide GoodSetting, Spelling, SettingLines, System.Lawful, Unbroken;
    if settings != [] {
      var front, s := settings[..|settings| - 1], settings[|settings| - 1];
      assert settings == front + [s];
      SettingsAreLines(front, values, sys);
      SettingLinesAreLines(s, values[s.flag], sys);
    }
  }

  lemma {:induction false} SectionsAreLines(i: nat, table: seq<Setting>, values: Values, sys: System)
    requires sys.Lawful() && i <= |SECTION_ORDER| && Covers(values, table) && PlainNumbers(table, values, sys)
    requires forall s | s in table :: GoodSetting(s, sys)
    ensures forall line | line in SectionsFrom(i, table, values, sys) :: Unbroken(line)
    decreases |SECTION_ORDER| - i
  {
    hide GoodSetting, Spelling, SettingLines, System.Lawful;
    if i < |SECTION_ORDER| {
      SectionsAreLines(i + 1, table, values, sys);
      SettingsAreLines(InSection(table, SECTION_ORDER[i]), values, sys);
      SectionLinesAreLines(i, InSection(table, SECTION_ORDER[i]), values, sys);
    }
  }

  lemma SectionLinesAreLines(i: nat, settings: seq<Setting>, values: Values, sys: System)
    requires i < |SECTION_ORDER| && Covers(values, settings)
    requires forall line | line in AllSettingLines(settings, values, sys) :: Unbroken(line)
    ensures forall line | line in SectionLines(SECTION_ORDER[i], settings, values, sys) :: Unbroken(line)
  {
    hide AllSettingLines;
    assert Unbroken(SECTION_ORDER[i] + ":");
  }

  /** What comes before the retired keys: heading, sections, and the note above the block. */
  function Before(table: seq<Setting>, values: Values, o: RenderOptions, sys: System): seq<string>
    requires Covers(values, table)
  {
    Heading(o) + SectionsFrom(0, table, values, sys) + (if o.retired == [] then [] else [""] + o.retiredNote)
  }

  lemma FileIs(table: seq<Setting>, values: Values, o: RenderOptions, sys: System)
    requires Covers(values, table)
    ensures FileLines(table, values, o, sys) == Before(table, values, o, sys) + Mapped(o.retired, ByLine())
  {
    hide Heading, SectionsFrom;
    if o.retired == [] { assert Mapped(o.retired, ByLine()) == []; }
  }

  /** No value and no comment of the writer's own breaks a line. */
  lemma WrittenIsUnbroken(table: seq<Setting>, values: Values, o: RenderOptions, sys: System)
    requires sys.Lawful() && GoodTable(table, sys) && GoodOptions(o) && Covers(values, table) && PlainNumbers(table, values, sys)
    ensures forall line | line in Before(table, values, o, sys) :: Unbroken(line)
  {
    hide GoodSetting, Heading, SectionsFrom, Unbroken, CommentLine, NbText, PlainNumbers, System.Lawful;
    HeadingIsComment(o);
    CommentTextIsUnbroken(Heading(o));
    CommentTextIsUnbroken(o.retiredNote);
    SectionsAreLines(0, table, values, sys);
    NothingIsPrintable();
  }

  /**
   * The file is its lines, by the rule YAML breaks them, if and only if no retired key or value has a
   * break of its own.
   */
  lemma RenderedLinesAreLinesIff(table: seq<Setting>, values: Values, o: RenderOptions, sys: System)
    requires sys.Lawful() && GoodTable(table, sys) && GoodOptions(o) && Covers(values, table) && PlainNumbers(table, values, sys)
    ensures YamlLines(Terminated(FileLines(table, values, o, sys))) == FileLines(table, values, o, sys) + [""]
            <==> RetiredIsUnbroken(o)
  {
    hide GoodTable, GoodOptions, Before, RetiredIsUnbroken, Unbroken, CommentLine, NbText, OneLine, PlainNumbers,
         System.Lawful, YamlLines, Terminated, FileLines;
    WrittenIsUnbroken(table, values, o, sys);
    RetiredLinesAre(o);
    FileIs(table, values, o, sys);
    LinesStandIff(FileLines(table, values, o, sys));
    var before, after := Before(table, values, o, sys), Mapped(o.retired, ByLine());
    assert forall line :: line in before + after <==> line in before || line in after;
  }

  /** Split at line feeds alone, it is whenever none of them has a line feed. */
  lemma RenderedLinesAreLines(table: seq<Setting>, values: Values, o: RenderOptions, sys: System)
    requires sys.Lawful() && GoodTable(table, sys) && GoodOptions(o) && Covers(values, table) && PlainNumbers(table, values, sys)
    requires forall r | r in o.retired :: OneLine(r.key) && OneLine(r.value)
    ensures SplitLines(Terminated(FileLines(table, values, o, sys))) == FileLines(table, values, o, sys) + [""]
  {
    hide GoodTable, GoodOptions, Before, Unbroken, CommentLine, NbText, OneLine, PlainNumbers,
         System.Lawful, SplitLines, Terminated, FileLines, RetiredIsText, RetiredIsUnbroken;
    WrittenIsUnbroken(table, values, o, sys);
    RetiredLinesAre(o);
    FileIs(table, values, o, sys);
    forall line | line in Before(table, values, o, sys) ensures OneLine(line) { UnbrokenIsOneLine(line); }
    SplitUndoesTermination(FileLines(table, values, o, sys));
  }

  // ----- reading the rendered text -----

  /** Up to the retired keys every setting is read with the text it was written as, and nothing else is. */
  lemma WrittenIsRead(table: seq<Setting>, values: Values, o: RenderOptions, sys: System)
    requires sys.Lawful() && GoodTable(table, sys) && GoodOptions(o)
    requires Covers(values, table) && AllWritable(table, values, sys)
    ensures var r := ReadLines(NOTHING_READ, Before(table, values, o, sys));
            !r.broken && Records(r.found, map[], table, values, sys) && r.section == LastSection("", 0, table)
  {
    hide GoodSetting, Heading, SectionsFrom, NbText, CommentLine, Records, System.Lawful, Spelling;
    HeadingIsComment(o);
    var sections := SectionsFrom(0, table, values, sys);
    SettingsFromIsExact(table, 0);
    AllSectionsAreKnown(table);
    CommentsReadAsNothing(NOTHING_READ, Heading(o));
    SectionsAreRead(NOTHING_READ, 0, table, values, sys);
    var r := ReadLines(NOTHING_READ, sections);
    var note := if o.retired == [] then [] else [""] + o.retiredNote;
    ReadConcat(NOTHING_READ, Heading(o), sections);
    ReadConcat(NOTHING_READ, Heading(o) + sections, note);
    CommentsReadAsNothing(r, note);
    RecordsSame(r.found, map[], SettingsFrom(table, 0), table, values, sys);
  }

  /** So the whole is read as these settings and then whatever YAML makes of the retired lines. */
  lemma TheRestIsRetired(table: seq<Setting>, values: Values, o: RenderOptions, sys: System)
    requires sys.Lawful() && GoodTable(table, sys) && GoodOptions(o) && Covers(values, table) && PlainNumbers(table, values, sys)
    ensures ReadText(Terminated(FileLines(table, values, o, sys)))
            == ReadLines(ReadLines(NOTHING_READ, Before(table, values, o, sys)),
                         YamlLines(Terminated(Mapped(o.retired, ByLine()))))
  {
    hide GoodTable, GoodOptions, Before, Unbroken, PlainNumbers, System.Lawful, YamlLines, Terminated, FileLines, ReadLine;
    var before, rest := Before(table, values, o, sys), Mapped(o.retired, ByLine());
    WrittenIsUnbroken(table, values, o, sys);
    FileIs(table, values, o, sys);
    TerminatedConcat(before, rest);
    UnbrokenFirst(before, Terminated(rest));
    ReadConcat(NOTHING_READ, before, YamlLines(Terminated(rest)));
  }

  /** Every setting is read with the text it was written as, and nothing else is, if what is retired is comment text. */
  lemma RenderedTextIsRead(table: seq<Setting>, values: Values, o: RenderOptions, sys: System)
    requires sys.Lawful() && GoodTable(table, sys) && GoodOptions(o) && RetiredIsText(o)
    requires Covers(values, table) && AllWritable(table, values, sys)
    ensures var r := ReadText(Terminated(FileLines(table, values, o, sys)));
            !r.broken && Records(r.found, map[], table, values, sys)
  {
    hide GoodSetting, GoodOptions, Before, Unbroken, CommentLine, NbText, Records, System.Lawful, YamlLines,
         Terminated, Spelling, FileLines, ReadLine;
    assert PlainNumbers(table, values, sys);
    WrittenIsRead(table, values, o, sys);
    TheRestIsRetired(table, values, o, sys);
    RetiredLinesAre(o);
    var r, lines := ReadLines(NOTHING_READ, Before(table, values, o, sys)), Mapped(o.retired, ByLine());
    forall line | line in lines ensures Unbroken(line) { NbTextIsUnbroken(line); }
    LinesStandIff(lines);
    CommentsReadAsNothing(r, lines + [""]);
  }

  lemma AllSectionsAreKnown(table: seq<Setting>)
    requires SectionsKnown(table)
    ensures forall s :: s in SettingsFrom(table, 0) <==> s in table
  {
    SettingsFromIsExact(table, 0);
    assert SECTION_ORDER[0..] == SECTION_ORDER;
  }

  lemma RecordsSame(after: map<string, string>, before: map<string, string>, a: seq<Setting>, b: seq<Setting>,
                    values: Values, sys: System)
    requires Covers(values, a) && Covers(values, b) && Records(after, before, a, values, sys)
    requires forall s :: s in a <==> s in b
    ensures Records(after, before, b, values, sys)
  {}
}
