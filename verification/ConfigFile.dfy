/**
 * The configuration file: written by internal/config/writer.go and read back by the YAML reader, both
 * as far as the writer's own shape goes -- sections at column zero, settings indented under them.
 */
module ConfigFile {
  import opened Prelude
  import opened Text
  import opened Sums
  import opened Quoting
  import opened Settings
  import Duration
  import ByteSize

  const SECTION_ORDER := ["database", "server", "session", "mail", "log", "cleanup"]

  /** What the writer records, by flag. */
  type Values = map<string, string>

  // ----- from the configuration to values -----

  function IsZeroValue(kind: Kind, rendered: string): bool {
    match kind
    case KindInt => rendered == "0"
    case KindDuration => rendered == "0s" || rendered == ""
    case KindByteSize => rendered == "0" || rendered == ""
    case _ => rendered == ""
  }

  /** The text of a setting: its value's, or the declared default where that is the type's zero. */
  function ValueText(s: Setting, v: Value, sys: System): string
    requires InRange(v)
  {
    var text := FormatSetting(v, sys);
    if IsZeroValue(s.kind, text) then s.standard else text
  }

  /** A field for every setting, of the type it is bound to. */
  predicate Fits(table: seq<Setting>, config: map<string, Value>) {
    forall s | s in table :: s.flag in config && FieldOf(config[s.flag]) == s.field && InRange(config[s.flag])
  }

  ghost predicate DistinctFlags(table: seq<Setting>) {
    forall i, j | 0 <= i < j < |table| :: table[i].flag != table[j].flag
  }

  method ValuesFrom(table: seq<Setting>, config: map<string, Value>, sys: System) returns (v: Values)
    requires Fits(table, config) && DistinctFlags(table)
    ensures forall s | s in table :: s.flag in v && v[s.flag] == ValueText(s, config[s.flag], sys)
  {
    hide FormatSetting, IsZeroValue;
    v := map[];
    for i := 0 to |table|
      invariant forall j | 0 <= j < i :: table[j].flag in v && v[table[j].flag] == FormatSetting(config[table[j].flag], sys)
    {
      v := v[table[i].flag := FormatSetting(config[table[i].flag], sys)];
    }
    for i := 0 to |table|
      invariant forall j | 0 <= j < i :: table[j].flag in v && v[table[j].flag] == ValueText(table[j], config[table[j].flag], sys)
      invariant forall j | i <= j < |table| :: table[j].flag in v && v[table[j].flag] == FormatSetting(config[table[j].flag], sys)
    {
      var setting := table[i];
      if setting.flag !in v || IsZeroValue(setting.kind, v[setting.flag]) {
        v := v[setting.flag := setting.standard];
      }
    }
  }

  // ----- from values to lines -----

  /** Same meaning as the declared default, whatever the spelling. */
  predicate EqualsDefault(s: Setting, value: string, sys: System) {
    || value == s.standard
    || (s.kind == KindDuration
        && Duration.Parsed(value, sys.floats).Some?
        && Duration.Parsed(value, sys.floats) == Duration.Parsed(s.standard, sys.floats))
    || (s.kind == KindByteSize
        && ByteSize.ParsedSize(value, sys.platform).Ok?
        && ByteSize.ParsedSize(value, sys.platform) == ByteSize.ParsedSize(s.standard, sys.platform))
  }

  function Spelling(s: Setting, value: string, sys: System): string {
    if EqualsDefault(s, value, sys) then s.standard else value
  }

  function YamlScalar(s: Setting, value: string): string {
    if s.kind == KindInt || s.kind == KindBool then
      if value == "" then s.standard else value
    else Quoted(value)
  }

  function Capitalised(usage: string): string {
    if usage != "" && 'a' <= usage[0] <= 'z' then [usage[0] - ('a' - 'A')] + usage[1..] else usage
  }

  function EnvRune(upper: char -> char): char -> char { (c: char) => upper(if c == '-' then '_' else c) }

  /** The environment variable's name. */
  function Env(flag: string, upper: char -> char): string {
    "DOENER_" + Mapped(flag, EnvRune(upper))
  }

  function SecretNote(env: string): string {
    "Never accepted on " + ("the command line. " + ("May also be " + ("supplied as " + (env + "."))))
  }

  function SecondComment(s: Setting, upper: char -> char): string {
    "  # " + (
      if s.secret then SecretNote(Env(s.flag, upper))
      else "Flag: --" + (s.flag + (". Environment: " + (Env(s.flag, upper) + (". Default: "
           + (if s.standard == "" then "(empty)" else s.standard))))))
  }

  function EntryLine(s: Setting, value: string, sys: System): string {
    "  " + s.leaf + ": " + YamlScalar(s, Spelling(s, value, sys))
  }

  function SettingLines(s: Setting, value: string, sys: System): seq<string> {
    ["  # " + (Capitalised(s.usage) + "."), SecondComment(s, sys.platform.upper), EntryLine(s, value, sys)]
  }

  predicate Covers(values: Values, table: seq<Setting>) {
    forall s | s in table :: s.flag in values
  }

  function InSection(table: seq<Setting>, section: string): (r: seq<Setting>)
    ensures forall s :: s in r <==> s in table && s.section == section
  {
    if table == [] then [] else
    var rest := InSection(table[..|table| - 1], section);
    var s := table[|table| - 1];
    if s.section == section then rest + [s] else rest
  }

  function AllSettingLines(settings: seq<Setting>, values: Values, sys: System): seq<string>
    requires Covers(values, settings)
  {
    if settings == [] then [] else
    AllSettingLines(settings[..|settings| - 1], values, sys)
    + SettingLines(settings[|settings| - 1], values[settings[|settings| - 1].flag], sys)
  }

  function SectionLines(section: string, settings: seq<Setting>, values: Values, sys: System): seq<string>
    requires Covers(values, settings)
  {
    if settings == [] then [] else ["", section + ":"] + AllSettingLines(settings, values, sys)
  }

  /** The sections from the i-th of the writer's order on. */
  function SectionsFrom(i: nat, table: seq<Setting>, values: Values, sys: System): seq<string>
    requires i <= |SECTION_ORDER| && Covers(values, table)
    decreases |SECTION_ORDER| - i
  {
    if i == |SECTION_ORDER| then [] else
    SectionLines(SECTION_ORDER[i], InSection(table, SECTION_ORDER[i]), values, sys)
    + SectionsFrom(i + 1, table, values, sys)
  }

  /** A key the file had that no setting has any more. */
  datatype Retired = Retired(key: string, value: string)

  /** The heading, the lines that explain it, and what is retired. */
  datatype RenderOptions = RenderOptions(
    generatedAt: string, verb: string, explanation: seq<string>, retiredNote: seq<string>, retired: seq<Retired>)

  function Heading(o: RenderOptions): seq<string> {
    ["# doenerstag configuration",
     "# Generated by doenerstag " + (if o.verb == "" then "install" else o.verb) + " on " + o.generatedAt]
    + o.explanation
  }

  function RetiredLine(r: Retired): string { "# " + r.key + ": " + r.value }

  function ByLine(): Retired -> string { (r: Retired) => RetiredLine(r) }

  function RetiredBlock(o: RenderOptions): seq<string> {
    if o.retired == [] then [] else [""] + o.retiredNote + Mapped(o.retired, ByLine())
  }

  /** Every section is one the writer knows; a setting of another would be dropped. */
  predicate SectionsKnown(table: seq<Setting>) {
    forall s | s in table :: s.section in SECTION_ORDER
  }

  function FileLines(table: seq<Setting>, values: Values, o: RenderOptions, sys: System): seq<string>
    requires Covers(values, table)
  {
    Heading(o) + SectionsFrom(0, table, values, sys) + RetiredBlock(o)
  }

  /** checkSectionsAreKnown: the keys no section of the file would list. */
  method UnknownKeys(table: seq<Setting>) returns (unknown: seq<string>)
    ensures unknown == [] <==> SectionsKnown(table)
    ensures forall k :: k in unknown <==> exists s :: s in table && s.section !in SECTION_ORDER && k == Key(s)
  {
    unknown := [];
    for i := 0 to |table|
      invariant forall k :: k in unknown <==> exists s :: s in table[..i] && s.section !in SECTION_ORDER && k == Key(s)
      invariant unknown == [] <==> SectionsKnown(table[..i])
    {
      assert table[..i + 1] == table[..i] + [table[i]];
      if table[i].section !in SECTION_ORDER {
        unknown := unknown + [Key(table[i])];
      }
    }
    assert table[..|table|] == table;
  }

  method WriteSetting(b: seq<string>, s: Setting, value: string, sys: System) returns (r: seq<string>)
    ensures r == b + SettingLines(s, value, sys)
  {
    hide YamlScalar, Env;
    var text := value;
    if EqualsDefault(s, value, sys) {
      text := s.standard;
    }
    assert text == Spelling(s, value, sys);
    hide Spelling, EqualsDefault;
    r := b + ["  # " + (Capitalised(s.usage) + ".")];
    r := r + [SecondComment(s, sys.platform.upper)];
    r := r + ["  " + s.leaf + ": " + YamlScalar(s, text)];
  }

  method RenderRetired(b: seq<string>, o: RenderOptions) returns (r: seq<string>)
    ensures r == b + RetiredBlock(o)
  {
    if o.retired == [] {
      return b;
    }
    r := b + [""] + o.retiredNote;
    for k := 0 to |o.retired|
      invariant r == b + ([""] + o.retiredNote + Mapped(o.retired, ByLine())[..k])
    {
      r := r + [RetiredLine(o.retired[k])];
    }
  }

  /** A section lists its settings in the order of the table. */
  lemma {:induction false} SectionKeepsOrder(a: seq<Setting>, b: seq<Setting>, section: string)
    ensures InSection(a + b, section) == InSection(a, section) + InSection(b, section)
  {
    if b == [] {
      assert a + b == a;
    } else {
      assert (a + b)[..|a + b| - 1] == a + b[..|b| - 1];
      SectionKeepsOrder(a, b[..|b| - 1], section);
    }
  }

  /** The file as it reads: heading and explanation, the sections in their order with what is set in each, what is retired. */
  lemma FileReads(table: seq<Setting>, values: Values, o: RenderOptions, sys: System)
    requires Covers(values, table)
    ensures FileLines(table, values, o, sys)
      == ["# doenerstag configuration",
          "# Generated by doenerstag " + (if o.verb == "" then "install" else o.verb) + " on " + o.generatedAt]
         + o.explanation
         + SectionLines("database", InSection(table, "database"), values, sys)
         + SectionLines("server", InSection(table, "server"), values, sys)
         + SectionLines("session", InSection(table, "session"), values, sys)
         + SectionLines("mail", InSection(table, "mail"), values, sys)
         + SectionLines("log", InSection(table, "log"), values, sys)
         + SectionLines("cleanup", InSection(table, "cleanup"), values, sys)
         + RetiredBlock(o)
  {
    hide SectionLines, InSection, RetiredBlock;
    SixSections(table, values, sys);
  }

  lemma SixSections(table: seq<Setting>, values: Values, sys: System)
    requires Covers(values, table)
    ensures SectionsFrom(0, table, values, sys)
      == SectionLines("database", InSection(table, "database"), values, sys)
         + SectionLines("server", InSection(table, "server"), values, sys)
         + SectionLines("session", InSection(table, "session"), values, sys)
         + SectionLines("mail", InSection(table, "mail"), values, sys)
         + SectionLines("log", InSection(table, "log"), values, sys)
         + SectionLines("cleanup", InSection(table, "cleanup"), values, sys)
  {
    hide SectionLines, InSection;
    assert SectionsFrom(6, table, values, sys) == [];
    assert SectionsFrom(5, table, values, sys) == SectionLines("cleanup", InSection(table, "cleanup"), values, sys);
    assert SectionsFrom(4, table, values, sys)
        == SectionLines("log", InSection(table, "log"), values, sys) + SectionsFrom(5, table, values, sys);
    assert SectionsFrom(3, table, values, sys)
        == SectionLines("mail", InSection(table, "mail"), values, sys) + SectionsFrom(4, table, values, sys);
    assert SectionsFrom(2, table, values, sys)
        == SectionLines("session", InSection(table, "session"), values, sys) + SectionsFrom(3, table, values, sys);
    assert SectionsFrom(1, table, values, sys)
        == SectionLines("server", InSection(table, "server"), values, sys) + SectionsFrom(2, table, values, sys);
  }

  /**
   * A setting's lines: its usage as a sentence, where else it can be set, and the setting. A secret's
   * second comment does not show its default and names no flag.
   */
  lemma SettingReads(s: Setting, value: string, sys: System) returns (variable: string)
    ensures |variable| == |s.flag| && forall i | 0 <= i < |s.flag| :: variable[i] == sys.platform.upper(if s.flag[i] == '-' then '_' else s.flag[i])
    ensures s.usage != "" && 'a' <= s.usage[0] <= 'z' ==>
      SettingLines(s, value, sys)[0] == "  # " + [s.usage[0] - ('a' - 'A')] + s.usage[1..] + "."
    ensures s.usage == "" || !('a' <= s.usage[0] <= 'z') ==> SettingLines(s, value, sys)[0] == "  # " + s.usage + "."
    ensures SettingLines(s, value, sys)[1]
      == if s.secret
         then "  # " + ("Never accepted on " + ("the command line. " + ("May also be " + ("supplied as "
                + (("DOENER_" + variable) + ".")))))
         else "  # " + ("Flag: --" + (s.flag + (". Environment: " + (("DOENER_" + variable) + (". Default: "
                + (if s.standard == "" then "(empty)" else s.standard))))))
  {
    hide EntryLine;
    variable := Mapped(s.flag, EnvRune(sys.platform.upper));
  }

  lemma NoSettingLines(values: Values, sys: System)
    ensures Covers(values, []) && AllSettingLines([], values, sys) == []
  {}

  lemma OneMoreSetting(b: seq<string>, settings: seq<Setting>, k: nat, values: Values, sys: System)
    requires k < |settings| && Covers(values, settings)
    ensures b + AllSettingLines(settings[..k], values, sys) + SettingLines(settings[k], values[settings[k].flag], sys)
      == b + AllSettingLines(settings[..k + 1], values, sys)
  {
    hide SettingLines;
    assert settings[..k + 1][..k] == settings[..k];
  }

  method WriteSection(b: seq<string>, section: string, table: seq<Setting>, values: Values, sys: System)
    returns (r: seq<string>)
    requires Covers(values, table)
    ensures r == b + SectionLines(section, InSection(table, section), values, sys)
  {
    hide SettingLines, AllSettingLines, InSection;
    NoSettingLines(values, sys);
    var settings := InSection(table, section);
    r := b;
    if settings != [] {
      r := b + ["", section + ":"];
      for k := 0 to |settings|
        invariant r == b + ["", section + ":"] + AllSettingLines(settings[..k], values, sys)
      {
        OneMoreSetting(b + ["", section + ":"], settings, k, values, sys);
        r := WriteSetting(r, settings[k], values[settings[k].flag], sys);
      }
      assert settings[..|settings|] == settings;
    }
  }

  method RenderFile(table: seq<Setting>, values: Values, o: RenderOptions, sys: System)
    returns (r: Result<seq<string>, seq<string>>)
    requires Covers(values, table)
    ensures r.Ok? <==> SectionsKnown(table)
    ensures r.Ok? ==> r.value == FileLines(table, values, o, sys)
    ensures r.Err? ==> forall k :: k in r.error <==> exists s :: s in table && s.section !in SECTION_ORDER && k == Key(s)
  {
    hide SectionLines, Heading, RetiredBlock, SectionsKnown;
    var unknown := UnknownKeys(table);
    if unknown != [] {
      return Err(unknown);
    }
    var b := Heading(o);
    for i := 0 to |SECTION_ORDER|
      invariant Heading(o) + SectionsFrom(0, table, values, sys) == b + SectionsFrom(i, table, values, sys)
    {
      b := WriteSection(b, SECTION_ORDER[i], table, values, sys);
    }
    b := RenderRetired(b, o);
    return Ok(b);
  }
}
